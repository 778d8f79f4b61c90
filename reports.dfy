/** app/reports/page.tsx, lines 171-268: the accumulation of the report.
    The rows of five sources are visited one source after the other; each
    row opens its day if needed and adds its amount and its check-ins to
    that day and to the running totals, and timesheet rows are also counted
    by package and by customer type. Days stand for the "yyyy-MM-dd" text
    each row is grouped under. */
module Reports {

  import opened Base
  import opened Text
  import opened ItemsSummary

  /** A fetched row. A missing `package_type` or `items_summary` is the
      empty text, a missing `pax` is 0, and a non-numeric amount is
      `None`. */
  datatype Row =
    | Timesheet(day: Day, amountPaid: Option<real>, packageType: string, isStudent: bool, isBoardExaminee: bool)
    | Exclusive(day: Day, amountPaid: Option<real>, pax: int)
    | FlexiSale(day: Day, amountPaid: Option<real>)
    | FlexiLog(day: Day)
    | PantrySale(day: Day, totalAmount: Option<real>, itemsSummary: string)

  /** `item.package_type || "Unknown"`. */
  function PackageName(packageType: string): string
  {
    if packageType == "" then "Unknown" else packageType
  }

  /** `item.pax || 1`. */
  function People(pax: int): int
  {
    if pax == 0 then 1 else pax
  }

  /** One day of `grouped`. */
  datatype DayTotals = DayTotals(timesheet: real, pantry: real, exclusive: real, flexi: real, checkIns: int)

  /** What `initDay` opens a day with. */
  const EmptyDay := DayTotals(0.0, 0.0, 0.0, 0.0, 0)

  /** `demoCounts`. */
  datatype Demographics = Demographics(student: int, examinee: int, regular: int, exclusive: int, flexi: int)

  /** Everything the callbacks update: `grouped` with its days in insertion
      order, the four running totals, `checkInCount`, `pkgCounts`,
      `pkgTotalCount`, `demoCounts` and `itemCounts`. */
  datatype Acc = Acc(
    grouped: map<Day, DayTotals>, days: seq<Day>,
    tTotal: real, pTotal: real, eTotal: real, fTotal: real,
    checkInCount: int,
    pkgCounts: Counts, pkgTotalCount: int,
    demo: Demographics,
    itemCounts: Counts)

  function Start(): Acc
  {
    Acc(map[], [], 0.0, 0.0, 0.0, 0.0, 0, NoCounts(), 0, Demographics(0, 0, 0, 0, 0), NoCounts())
  }

  /** The state after `initDay(d)`. */
  function Opened(acc: Acc, d: Day): Acc
  {
    if d in acc.grouped then acc
    else acc.(grouped := acc.grouped[d := EmptyDay], days := acc.days + [d])
  }

  /** The customer type of a timesheet row: Student, else Examinee, else
      Regular. */
  function Classified(demo: Demographics, isStudent: bool, isBoardExaminee: bool): Demographics
  {
    if isStudent then demo.(student := demo.student + 1)
    else if isBoardExaminee then demo.(examinee := demo.examinee + 1)
    else demo.(regular := demo.regular + 1)
  }

  /** The customer-type branch of the timesheet callback, as the statements
      `AddTimesheet` runs; `Classified` is its specification. A separate
      method keeps the branches out of `AddTimesheet`'s proof. */
  method Classify(demo: Demographics, isStudent: bool, isBoardExaminee: bool) returns (r: Demographics)
    ensures r == Classified(demo, isStudent, isBoardExaminee)
  {
    if isStudent {
      r := demo.(student := demo.student + 1);
    } else if isBoardExaminee {
      r := demo.(examinee := demo.examinee + 1);
    } else {
      r := demo.(regular := demo.regular + 1);
    }
  }

  /** The items of a pantry sale's summary; none when it is empty. */
  function SaleItems(itemsSummary: string): seq<ItemQty>
  {
    if itemsSummary == "" then [] else ParseSummary(itemsSummary)
  }

  /** The counts with the items of a sale's summary added. */
  function SaleCounted(counts: Counts, itemsSummary: string): Counts
  {
    AddItems(counts, SaleItems(itemsSummary))
  }

  /** A sale's state differs from the same sale with other item counts only
      in those counts. */
  lemma SaleOnRecount(a: Acc, d: Day, amt: real, counted: Counts)
    requires d in a.grouped
    ensures SaleOn(a, d, amt, counted) == SaleOn(a, d, amt, a.itemCounts).(itemCounts := counted)
  {
  }

  /** The timesheet callback (lines 191-211), on a day already opened. */
  function TimesheetStep(a: Acc, d: Day, amountPaid: Option<real>, packageType: string,
                         isStudent: bool, isBoardExaminee: bool): Acc
    requires d in a.grouped
  {
    var g := a.grouped[d];
    var amt := OrZero(amountPaid);
    a.(grouped := a.grouped[d := g.(timesheet := g.timesheet + amt, checkIns := g.checkIns + 1)],
       tTotal := a.tTotal + amt,
       checkInCount := a.checkInCount + 1,
       pkgCounts := AddItem(a.pkgCounts, ItemQty(PackageName(packageType), 1)),
       pkgTotalCount := a.pkgTotalCount + 1,
       demo := Classified(a.demo, isStudent, isBoardExaminee))
  }

  /** The exclusive-booking callback (lines 214-227). */
  function ExclusiveStep(a: Acc, d: Day, amountPaid: Option<real>, pax: int): Acc
    requires d in a.grouped
  {
    var g := a.grouped[d];
    var amt := OrZero(amountPaid);
    var people := People(pax);
    a.(grouped := a.grouped[d := g.(exclusive := g.exclusive + amt, checkIns := g.checkIns + people)],
       eTotal := a.eTotal + amt,
       checkInCount := a.checkInCount + people,
       demo := a.demo.(exclusive := a.demo.exclusive + people))
  }

  /** The Flexi-sale callback (lines 230-237). */
  function FlexiSaleStep(a: Acc, d: Day, amountPaid: Option<real>): Acc
    requires d in a.grouped
  {
    var g := a.grouped[d];
    var amt := OrZero(amountPaid);
    a.(grouped := a.grouped[d := g.(flexi := g.flexi + amt)],
       fTotal := a.fTotal + amt,
       demo := a.demo.(flexi := a.demo.flexi + 1))
  }

  /** The Flexi-log callback (lines 240-245). */
  function FlexiLogStep(a: Acc, d: Day): Acc
    requires d in a.grouped
  {
    var g := a.grouped[d];
    a.(grouped := a.grouped[d := g.(checkIns := g.checkIns + 1)],
       checkInCount := a.checkInCount + 1)
  }

  /** The pantry callback (lines 249-268). */
  function PantryStep(a: Acc, d: Day, totalAmount: Option<real>, itemsSummary: string): Acc
    requires d in a.grouped
  {
    SaleOn(a, d, OrZero(totalAmount), SaleCounted(a.itemCounts, itemsSummary))
  }

  /** A sale of `amt` on day `d`, leaving the item counts `counted`. */
  function SaleOn(a: Acc, d: Day, amt: real, counted: Counts): Acc
    requires d in a.grouped
  {
    var g := a.grouped[d];
    a.(grouped := a.grouped[d := g.(pantry := g.pantry + amt)], pTotal := a.pTotal + amt, itemCounts := counted)
  }

  /** One callback of the five `forEach` loops: open the row's day, then
      count the row. */
  function Step(acc: Acc, row: Row): Acc
  {
    var a := Opened(acc, row.day);
    match row
    case Timesheet(d, amountPaid, packageType, isStudent, isBoardExaminee) =>
      TimesheetStep(a, d, amountPaid, packageType, isStudent, isBoardExaminee)
    case Exclusive(d, amountPaid, pax) => ExclusiveStep(a, d, amountPaid, pax)
    case FlexiSale(d, amountPaid) => FlexiSaleStep(a, d, amountPaid)
    case FlexiLog(d) => FlexiLogStep(a, d)
    case PantrySale(d, totalAmount, itemsSummary) => PantryStep(a, d, totalAmount, itemsSummary)
  }

  /** The rows visited in order. */
  function Fold(acc: Acc, rows: seq<Row>): Acc
  {
    if rows == [] then acc else Step(Fold(acc, rows[..|rows| - 1]), rows[|rows| - 1])
  }

  lemma FoldPrefix(acc: Acc, rows: seq<Row>, i: int)
    requires 0 <= i < |rows|
    ensures Fold(acc, rows[..i + 1]) == Step(Fold(acc, rows[..i]), rows[i])
  {
    assert rows[..i + 1][..i] == rows[..i];
  }

  /** Visiting two lists of rows one after the other is visiting their
      concatenation. */
  lemma {:induction false} FoldConcat(acc: Acc, xs: seq<Row>, ys: seq<Row>)
    ensures Fold(Fold(acc, xs), ys) == Fold(acc, xs + ys)
    decreases |ys|
  {
    if ys == [] {
      assert xs + ys == xs;
    } else {
      var init := ys[..|ys| - 1];
      FoldConcat(acc, xs, init);
      assert (xs + ys)[..|xs + ys| - 1] == xs + init;
    }
  }

  // ------------------------------------------------------------ the loops

  /** The callbacks' shared state. */
  class Accumulator {
    var grouped: map<Day, DayTotals>
    var days: seq<Day>
    var tTotal: real
    var pTotal: real
    var eTotal: real
    var fTotal: real
    var checkInCount: int
    var pkgCounts: Counts
    var pkgTotalCount: int
    var demoCounts: Demographics
    var itemCounts: Counts

    function State(): Acc
      reads this
    {
      Acc(grouped, days, tTotal, pTotal, eTotal, fTotal, checkInCount, pkgCounts, pkgTotalCount, demoCounts, itemCounts)
    }

    constructor()
      ensures State() == Start()
    {
      grouped := map[];
      days := [];
      tTotal, pTotal, eTotal, fTotal := 0.0, 0.0, 0.0, 0.0;
      checkInCount := 0;
      pkgCounts := NoCounts();
      pkgTotalCount := 0;
      demoCounts := Demographics(0, 0, 0, 0, 0);
      itemCounts := NoCounts();
    }

    /** `initDay(d)`. */
    method InitDay(d: Day)
      modifies this
      ensures State() == Opened(old(State()), d)
    {
      if d !in grouped {
        grouped := grouped[d := EmptyDay];
        days := days + [d];
      }
    }

    /** One callback. */
    method Add(row: Row)
      modifies this
      ensures State() == Step(old(State()), row)
    {
      InitDay(row.day);
      match row
      case Timesheet(d, amountPaid, packageType, isStudent, isBoardExaminee) =>
        AddTimesheet(d, amountPaid, packageType, isStudent, isBoardExaminee);
      case Exclusive(d, amountPaid, pax) =>
        AddExclusive(d, amountPaid, pax);
      case FlexiSale(d, amountPaid) =>
        AddFlexiSale(d, amountPaid);
      case FlexiLog(d) =>
        AddFlexiLog(d);
      case PantrySale(d, totalAmount, itemsSummary) =>
        AddPantrySale(d, totalAmount, itemsSummary);
    }

    method AddTimesheet(d: Day, amountPaid: Option<real>, packageType: string, isStudent: bool, isBoardExaminee: bool)
      requires d in grouped
      modifies this
      ensures State() == TimesheetStep(old(State()), d, amountPaid, packageType, isStudent, isBoardExaminee)
    {
      var amt := OrZero(amountPaid);
      var g := grouped[d];
      var day := g.(timesheet := g.timesheet + amt, checkIns := g.checkIns + 1);
      var sum, visits := tTotal + amt, checkInCount + 1;
      var packages := AddItem(pkgCounts, ItemQty(PackageName(packageType), 1));
      var sold := pkgTotalCount + 1;
      var demo := Classify(demoCounts, isStudent, isBoardExaminee);
      grouped := grouped[d := day];
      tTotal, checkInCount := sum, visits;
      pkgCounts, pkgTotalCount := packages, sold;
      demoCounts := demo;
    }

    method AddExclusive(d: Day, amountPaid: Option<real>, pax: int)
      requires d in grouped
      modifies this
      ensures State() == ExclusiveStep(old(State()), d, amountPaid, pax)
    {
      var amt := OrZero(amountPaid);
      var people := People(pax);
      var g := grouped[d];
      grouped := grouped[d := g.(exclusive := g.exclusive + amt, checkIns := g.checkIns + people)];
      eTotal := eTotal + amt;
      checkInCount := checkInCount + people;
      demoCounts := demoCounts.(exclusive := demoCounts.exclusive + people);
    }

    method AddFlexiSale(d: Day, amountPaid: Option<real>)
      requires d in grouped
      modifies this
      ensures State() == FlexiSaleStep(old(State()), d, amountPaid)
    {
      var amt := OrZero(amountPaid);
      var g := grouped[d];
      grouped := grouped[d := g.(flexi := g.flexi + amt)];
      fTotal := fTotal + amt;
      demoCounts := demoCounts.(flexi := demoCounts.flexi + 1);
    }

    method AddFlexiLog(d: Day)
      requires d in grouped
      modifies this
      ensures State() == FlexiLogStep(old(State()), d)
    {
      var g := grouped[d];
      grouped := grouped[d := g.(checkIns := g.checkIns + 1)];
      checkInCount := checkInCount + 1;
    }

    method AddPantrySale(d: Day, totalAmount: Option<real>, itemsSummary: string)
      requires d in grouped
      modifies this
      ensures itemCounts == SaleCounted(old(itemCounts), itemsSummary)
      ensures State() == SaleOn(old(State()), d, OrZero(totalAmount), itemCounts)
    {
      ghost var before := State();
      var amt := OrZero(totalAmount);
      AddPantryAmount(d, amt);
      CountPantryItems(itemsSummary);
      SaleOnRecount(before, d, amt, itemCounts);
    }

    /** Lines 253-255: the sale's amount added to its day and to the total. */
    method AddPantryAmount(d: Day, amt: real)
      requires d in grouped
      modifies this
      ensures State() == SaleOn(old(State()), d, amt, old(itemCounts))
    {
      var g := grouped[d];
      grouped := grouped[d := g.(pantry := g.pantry + amt)];
      pTotal := pTotal + amt;
    }

    /** Lines 257-267: the sale's items added to the item counts. */
    method CountPantryItems(itemsSummary: string)
      modifies this
      ensures State() == old(State()).(itemCounts := SaleCounted(old(itemCounts), itemsSummary))
    {
      itemCounts := CountSale(itemCounts, itemsSummary);
    }

    /** `rows.forEach(callback)`. */
    method AddAll(rows: seq<Row>)
      modifies this
      ensures State() == Fold(old(State()), rows)
    {
      var i := 0;
      while i < |rows|
        invariant 0 <= i <= |rows|
        invariant State() == Fold(old(State()), rows[..i])
      {
        FoldPrefix(old(State()), rows, i);
        Add(rows[i]);
        i := i + 1;
      }
      assert rows[..i] == rows;
    }
  }

  /** `if (p.items_summary)`: the items of a non-empty summary counted, as
      the statements `CountPantryItems` runs; `SaleCounted` is its
      specification. A separate method keeps the branch out of the state
      method's proof. */
  method CountSale(counts: Counts, itemsSummary: string) returns (r: Counts)
    ensures r == SaleCounted(counts, itemsSummary)
  {
    if itemsSummary != "" {
      r := CountItems(counts, itemsSummary);
    } else {
      r := counts;
    }
  }

  /** The `parts.forEach` of lines 258-266. */
  method CountItems(counts: Counts, itemsSummary: string) returns (r: Counts)
    ensures r == AddItems(counts, ParseSummary(itemsSummary))
  {
    var parts := Split(itemsSummary, ',');
    r := counts;
    var i := 0;
    assert parts[..0] == [] && Matches([]) == [];
    while i < |parts|
      invariant 0 <= i <= |parts|
      invariant r == AddItems(counts, Matches(parts[..i]))
    {
      var m := MatchItem(Trim(parts[i]));
      CountStep(counts, parts, i);
      if m.Some? {
        r := AddItem(r, m.value);
      }
      i := i + 1;
    }
    assert parts[..i] == parts;
    assert Matches(parts) == ParseSummary(itemsSummary);
  }

  /** One piece more: its item, if it matches, is counted. */
  lemma CountStep(counts: Counts, parts: seq<string>, i: int)
    requires 0 <= i < |parts|
    ensures var m := MatchItem(Trim(parts[i]));
            var r := AddItems(counts, Matches(parts[..i]));
            AddItems(counts, Matches(parts[..i + 1])) == if m.Some? then AddItem(r, m.value) else r
  {
    var m := MatchItem(Trim(parts[i]));
    var tail := if m.Some? then [m.value] else [];
    MatchesPrefix(parts, i);
    AddItemsConcat(counts, Matches(parts[..i]), tail);
    AddItemsShort(AddItems(counts, Matches(parts[..i])), tail);
  }

  lemma AddItemsShort(c: Counts, items: seq<ItemQty>)
    requires |items| <= 1
    ensures AddItems(c, items) == if items == [] then c else AddItem(c, items[0])
  {
    if items != [] {
      assert items[1..] == [];
    }
  }

  lemma MatchesPrefix(parts: seq<string>, i: int)
    requires 0 <= i < |parts|
    ensures var m := MatchItem(Trim(parts[i]));
            Matches(parts[..i + 1]) == Matches(parts[..i]) + (if m.Some? then [m.value] else [])
  {
    assert parts[..i + 1] == parts[..i] + [parts[i]];
    MatchesConcat(parts[..i], [parts[i]]);
    MatchesOne(parts[i]);
  }

  lemma MatchesOne(part: string)
    ensures var m := MatchItem(Trim(part));
            Matches([part]) == if m.Some? then [m.value] else []
  {
    var m := MatchItem(Trim(part));
    assert [part][0] == part && [part][1..] == [];
    assert Matches([part]) == (if m.Some? then [m.value] else []) + [];
  }

  lemma {:induction false} MatchesConcat(a: seq<string>, b: seq<string>)
    ensures Matches(a + b) == Matches(a) + Matches(b)
  {
    if a != [] {
      var m := MatchItem(Trim(a[0]));
      var h := if m.Some? then [m.value] else [];
      TailOfConcat(a, b);
      assert Matches(a + b) == h + Matches(a[1..] + b);
      MatchesConcat(a[1..], b);
      AppendAssoc(h, Matches(a[1..]), Matches(b));
    } else {
      assert a + b == b;
    }
  }

  lemma {:induction false} AddItemsConcat(c: Counts, a: seq<ItemQty>, b: seq<ItemQty>)
    ensures AddItems(c, a + b) == AddItems(AddItems(c, a), b)
    decreases |a|
  {
    if a != [] {
      TailOfConcat(a, b);
      AddItemsConcat(AddItem(c, a[0]), a[1..], b);
    } else {
      assert a + b == b;
    }
  }

  // ------------------------------------------------------------ sums by day

  /** The money columns of a day, its check-ins and its total. */
  datatype Column = TimesheetColumn | PantryColumn | ExclusiveColumn | FlexiColumn | CheckInsColumn | TotalColumn

  /** A column of a day; the total is `timesheet + pantry + exclusive +
      flexi`, as on line 279. */
  function DayValue(t: DayTotals, c: Column): real
  {
    match c
    case TimesheetColumn => t.timesheet
    case PantryColumn => t.pantry
    case ExclusiveColumn => t.exclusive
    case FlexiColumn => t.flexi
    case CheckInsColumn => t.checkIns as real
    case TotalColumn => t.timesheet + t.pantry + t.exclusive + t.flexi
  }

  /** The running counter that goes with a column; the grand total is
      `tTotal + pTotal + eTotal + fTotal`, as on line 312. */
  function AccValue(acc: Acc, c: Column): real
  {
    match c
    case TimesheetColumn => acc.tTotal
    case PantryColumn => acc.pTotal
    case ExclusiveColumn => acc.eTotal
    case FlexiColumn => acc.fTotal
    case CheckInsColumn => acc.checkInCount as real
    case TotalColumn => acc.tTotal + acc.pTotal + acc.eTotal + acc.fTotal
  }

  function Lookup(grouped: map<Day, DayTotals>, d: Day): DayTotals
  {
    if d in grouped then grouped[d] else EmptyDay
  }

  /** A column summed over the listed days. */
  function DaySum(grouped: map<Day, DayTotals>, days: seq<Day>, c: Column): real
  {
    if days == [] then 0.0
    else DaySum(grouped, days[..|days| - 1], c) + DayValue(Lookup(grouped, days[|days| - 1]), c)
  }

  predicate DistinctDays(days: seq<Day>)
  {
    forall i, j :: 0 <= i < j < |days| ==> days[i] != days[j]
  }

  /** What holds after any rows: `grouped` has exactly the listed days, each
      once; every running counter is the sum of its column over the days;
      the count dictionaries list their keys once each, and the package
      counts add up to `pkgTotalCount`. */
  ghost predicate Sound(acc: Acc)
  {
    && (forall d :: d in acc.grouped <==> d in acc.days)
    && DistinctDays(acc.days)
    && (forall c :: DaySum(acc.grouped, acc.days, c) == AccValue(acc, c))
    && Listed(acc.pkgCounts) && CountSum(acc.pkgCounts) == acc.pkgTotalCount
    && Listed(acc.itemCounts)
  }

  lemma {:induction false} DaySumUpdate(grouped: map<Day, DayTotals>, days: seq<Day>, d: Day, t: DayTotals, c: Column)
    requires DistinctDays(days)
    ensures DaySum(grouped[d := t], days, c)
         == DaySum(grouped, days, c) + (if d in days then DayValue(t, c) - DayValue(Lookup(grouped, d), c) else 0.0)
  {
    if days != [] {
      var init := days[..|days| - 1];
      DaySumUpdate(grouped, init, d, t, c);
      assert d in days <==> d in init || d == days[|days| - 1];
      assert days[|days| - 1] == d ==> d !in init;
    }
  }

  lemma StartSound()
    ensures Sound(Start())
  {
  }

  lemma OpenedSound(acc: Acc, d: Day)
    requires Sound(acc)
    ensures Sound(Opened(acc, d)) && d in Opened(acc, d).grouped
  {
    if d !in acc.grouped {
      var a := Opened(acc, d);
      forall c ensures DaySum(a.grouped, a.days, c) == AccValue(a, c) {
        DaySumUpdate(acc.grouped, acc.days, d, EmptyDay, c);
        assert a.days[..|a.days| - 1] == acc.days;
      }
      assert DistinctDays(a.days) by {
        forall i, j | 0 <= i < j < |a.days| ensures a.days[i] != a.days[j] {
          if j == |acc.days| {
            assert a.days[i] == acc.days[i];
          }
        }
      }
    }
  }

  /** Adding to one day's columns adds the same to the running counters. */
  lemma DayChanged(a: Acc, b: Acc, d: Day, t: DayTotals)
    requires Sound(a) && d in a.grouped
    requires b.grouped == a.grouped[d := t] && b.days == a.days
    requires forall c :: AccValue(b, c) - AccValue(a, c) == DayValue(t, c) - DayValue(a.grouped[d], c)
    requires Listed(b.pkgCounts) && CountSum(b.pkgCounts) == b.pkgTotalCount && Listed(b.itemCounts)
    ensures Sound(b)
  {
    forall c ensures DaySum(b.grouped, b.days, c) == AccValue(b, c) {
      DaySumUpdate(a.grouped, a.days, d, t, c);
    }
  }

  lemma {:induction false} AddItemsListed(c: Counts, items: seq<ItemQty>)
    requires Listed(c)
    ensures Listed(AddItems(c, items))
  {
    if items != [] {
      AddItemsCounts(c, items, "");
    }
  }

  lemma TimesheetSound(a: Acc, d: Day, amountPaid: Option<real>, packageType: string, isStudent: bool, isBoardExaminee: bool)
    requires Sound(a) && d in a.grouped
    ensures Sound(TimesheetStep(a, d, amountPaid, packageType, isStudent, isBoardExaminee))
  {
    var b := TimesheetStep(a, d, amountPaid, packageType, isStudent, isBoardExaminee);
    PackageCounted(a.pkgCounts, a.pkgTotalCount, PackageName(packageType));
    TimesheetColumns(a, d, amountPaid, packageType, isStudent, isBoardExaminee);
    DayChanged(a, b, d, b.grouped[d]);
  }

  lemma PackageCounted(c: Counts, n: int, name: string)
    requires Listed(c) && CountSum(c) == n
    ensures Listed(AddItem(c, ItemQty(name, 1))) && CountSum(AddItem(c, ItemQty(name, 1))) == n + 1
  {
    var item := ItemQty(name, 1);
    AddItemSum(c, item);
    AddItemsCounts(c, [item], "");
    assert AddItems(c, [item]) == AddItem(c, item);
  }

  lemma TimesheetColumns(a: Acc, d: Day, amountPaid: Option<real>, packageType: string, isStudent: bool, isBoardExaminee: bool)
    requires d in a.grouped
    ensures var b := TimesheetStep(a, d, amountPaid, packageType, isStudent, isBoardExaminee);
      forall c :: AccValue(b, c) - AccValue(a, c) == DayValue(b.grouped[d], c) - DayValue(a.grouped[d], c)
  {
  }

  lemma ExclusiveSound(a: Acc, d: Day, amountPaid: Option<real>, pax: int)
    requires Sound(a) && d in a.grouped
    ensures Sound(ExclusiveStep(a, d, amountPaid, pax))
  {
    var b := ExclusiveStep(a, d, amountPaid, pax);
    DayChanged(a, b, d, b.grouped[d]);
  }

  lemma FlexiSaleSound(a: Acc, d: Day, amountPaid: Option<real>)
    requires Sound(a) && d in a.grouped
    ensures Sound(FlexiSaleStep(a, d, amountPaid))
  {
    var b := FlexiSaleStep(a, d, amountPaid);
    DayChanged(a, b, d, b.grouped[d]);
  }

  lemma FlexiLogSound(a: Acc, d: Day)
    requires Sound(a) && d in a.grouped
    ensures Sound(FlexiLogStep(a, d))
  {
    var b := FlexiLogStep(a, d);
    DayChanged(a, b, d, b.grouped[d]);
  }

  lemma PantrySound(a: Acc, d: Day, totalAmount: Option<real>, itemsSummary: string)
    requires Sound(a) && d in a.grouped
    ensures Sound(PantryStep(a, d, totalAmount, itemsSummary))
  {
    var counted := SaleCounted(a.itemCounts, itemsSummary);
    AddItemsListed(a.itemCounts, SaleItems(itemsSummary));
    SaleSound(a, d, OrZero(totalAmount), counted);
  }

  /** A pantry sale that adds its amount to its day and to the pantry
      total keeps the report sound, whatever listed counts it leaves. */
  lemma SaleSound(a: Acc, d: Day, amt: real, counted: Counts)
    requires Sound(a) && d in a.grouped && Listed(counted)
    ensures Sound(SaleOn(a, d, amt, counted))
  {
    var b := SaleOn(a, d, amt, counted);
    assert forall c :: AccValue(b, c) - AccValue(a, c) == DayValue(b.grouped[d], c) - DayValue(a.grouped[d], c);
    DayChanged(a, b, d, b.grouped[d]);
  }

  /** Every callback keeps the report sound. */
  lemma StepSound(acc: Acc, row: Row)
    requires Sound(acc)
    ensures Sound(Step(acc, row))
  {
    var a := Opened(acc, row.day);
    OpenedSound(acc, row.day);
    match row
    case Timesheet(d, amountPaid, packageType, isStudent, isBoardExaminee) =>
      TimesheetSound(a, d, amountPaid, packageType, isStudent, isBoardExaminee);
    case Exclusive(d, amountPaid, pax) => ExclusiveSound(a, d, amountPaid, pax);
    case FlexiSale(d, amountPaid) => FlexiSaleSound(a, d, amountPaid);
    case FlexiLog(d) => FlexiLogSound(a, d);
    case PantrySale(d, totalAmount, itemsSummary) => PantrySound(a, d, totalAmount, itemsSummary);
  }

  lemma {:induction false} FoldSound(acc: Acc, rows: seq<Row>)
    requires Sound(acc)
    ensures Sound(Fold(acc, rows))
  {
    if rows != [] {
      FoldSound(acc, rows[..|rows| - 1]);
      StepSound(Fold(acc, rows[..|rows| - 1]), rows[|rows| - 1]);
    }
  }

  // ------------------------------------------------------------ what rows add

  /** The check-ins a row brings: one per timesheet booking and per Flexi
      visit, `pax || 1` per exclusive booking, none for sales. */
  function CheckIns(row: Row): int
  {
    match row
    case Timesheet(_, _, _, _, _) => 1
    case Exclusive(_, _, pax) => People(pax)
    case FlexiSale(_, _) => 0
    case FlexiLog(_) => 1
    case PantrySale(_, _, _) => 0
  }

  /** What a row adds to a column: its amount to its own source's column
      and to the total, its check-ins to the check-ins. */
  function Contribution(row: Row, c: Column): real
  {
    match c
    case TimesheetColumn => if row.Timesheet? then OrZero(row.amountPaid) else 0.0
    case PantryColumn => if row.PantrySale? then OrZero(row.totalAmount) else 0.0
    case ExclusiveColumn => if row.Exclusive? then OrZero(row.amountPaid) else 0.0
    case FlexiColumn => if row.FlexiSale? then OrZero(row.amountPaid) else 0.0
    case CheckInsColumn => CheckIns(row) as real
    case TotalColumn => Revenue(row)
  }

  /** The amount a row brings, whichever its source; none for a visit. */
  function Revenue(row: Row): real
  {
    match row
    case Timesheet(_, amountPaid, _, _, _) => OrZero(amountPaid)
    case Exclusive(_, amountPaid, _) => OrZero(amountPaid)
    case FlexiSale(_, amountPaid) => OrZero(amountPaid)
    case FlexiLog(_) => 0.0
    case PantrySale(_, totalAmount, _) => OrZero(totalAmount)
  }

  function RowsSum(rows: seq<Row>, c: Column): real
  {
    if rows == [] then 0.0 else RowsSum(rows[..|rows| - 1], c) + Contribution(rows[|rows| - 1], c)
  }

  lemma StepColumn(acc: Acc, row: Row, c: Column)
    ensures AccValue(Step(acc, row), c) == AccValue(acc, c) + Contribution(row, c)
  {
  }

  /** Every running counter grows by exactly what the rows add to it. */
  lemma {:induction false} FoldColumns(acc: Acc, rows: seq<Row>, c: Column)
    ensures AccValue(Fold(acc, rows), c) == AccValue(acc, c) + RowsSum(rows, c)
  {
    if rows != [] {
      FoldColumns(acc, rows[..|rows| - 1], c);
      StepColumn(Fold(acc, rows[..|rows| - 1]), rows[|rows| - 1], c);
    }
  }

  /** The people counted by the customer-type chart and the package chart. */
  datatype Counter = Visits | Guests | Memberships | Logs | Students | Examinees | Regulars

  function Weight(row: Row, k: Counter): int
  {
    match k
    case Visits => if row.Timesheet? then 1 else 0
    case Guests => if row.Exclusive? then People(row.pax) else 0
    case Memberships => if row.FlexiSale? then 1 else 0
    case Logs => if row.FlexiLog? then 1 else 0
    case Students => if row.Timesheet? && row.isStudent then 1 else 0
    case Examinees => if row.Timesheet? && !row.isStudent && row.isBoardExaminee then 1 else 0
    case Regulars => if row.Timesheet? && !row.isStudent && !row.isBoardExaminee then 1 else 0
  }

  function RowCount(rows: seq<Row>, k: Counter): int
  {
    if rows == [] then 0 else RowCount(rows[..|rows| - 1], k) + Weight(rows[|rows| - 1], k)
  }

  function Customers(demo: Demographics): int
  {
    demo.student + demo.examinee + demo.regular
  }

  /** Check-ins grow by the timesheet bookings, the exclusive guests and the
      Flexi visits; every timesheet booking is one package sold and one
      customer of exactly one of the three types; each exclusive guest is
      an Exclusive customer and each Flexi sale a Flexi one. */
  lemma {:induction false} FoldCounters(acc: Acc, rows: seq<Row>)
    ensures Fold(acc, rows).checkInCount
         == acc.checkInCount + RowCount(rows, Visits) + RowCount(rows, Guests) + RowCount(rows, Logs)
    ensures Fold(acc, rows).pkgTotalCount == acc.pkgTotalCount + RowCount(rows, Visits)
    ensures Customers(Fold(acc, rows).demo) == Customers(acc.demo) + RowCount(rows, Visits)
    ensures Fold(acc, rows).demo.exclusive == acc.demo.exclusive + RowCount(rows, Guests)
    ensures Fold(acc, rows).demo.flexi == acc.demo.flexi + RowCount(rows, Memberships)
  {
    if rows != [] {
      FoldCounters(acc, rows[..|rows| - 1]);
      StepCounters(Fold(acc, rows[..|rows| - 1]), rows[|rows| - 1]);
    }
  }

  lemma StepCounters(acc: Acc, row: Row)
    ensures Step(acc, row).checkInCount
         == acc.checkInCount + Weight(row, Visits) + Weight(row, Guests) + Weight(row, Logs)
    ensures Step(acc, row).pkgTotalCount == acc.pkgTotalCount + Weight(row, Visits)
    ensures Customers(Step(acc, row).demo) == Customers(acc.demo) + Weight(row, Visits)
    ensures Step(acc, row).demo.exclusive == acc.demo.exclusive + Weight(row, Guests)
    ensures Step(acc, row).demo.flexi == acc.demo.flexi + Weight(row, Memberships)
  {
  }

  /** Each timesheet booking is a Student when flagged so, else an
      Examinee when flagged so, else a Regular. */
  lemma {:induction false} FoldCustomerTypes(acc: Acc, rows: seq<Row>)
    ensures Fold(acc, rows).demo.student == acc.demo.student + RowCount(rows, Students)
    ensures Fold(acc, rows).demo.examinee == acc.demo.examinee + RowCount(rows, Examinees)
    ensures Fold(acc, rows).demo.regular == acc.demo.regular + RowCount(rows, Regulars)
  {
    if rows != [] {
      FoldCustomerTypes(acc, rows[..|rows| - 1]);
      StepCustomerTypes(Fold(acc, rows[..|rows| - 1]), rows[|rows| - 1]);
    }
  }

  lemma StepCustomerTypes(acc: Acc, row: Row)
    ensures Step(acc, row).demo.student == acc.demo.student + Weight(row, Students)
    ensures Step(acc, row).demo.examinee == acc.demo.examinee + Weight(row, Examinees)
    ensures Step(acc, row).demo.regular == acc.demo.regular + Weight(row, Regulars)
  {
  }

  lemma StepDays(acc: Acc, row: Row, d: Day)
    ensures d in Step(acc, row).grouped <==> d in acc.grouped || row.day == d
  {
  }

  /** A day is in `grouped` iff it was before or some row falls on it. */
  lemma {:induction false} FoldDays(acc: Acc, rows: seq<Row>, d: Day)
    ensures d in Fold(acc, rows).grouped <==> d in acc.grouped || exists i :: 0 <= i < |rows| && rows[i].day == d
  {
    if rows != [] {
      var init := rows[..|rows| - 1];
      FoldDays(acc, init, d);
      StepDays(Fold(acc, init), rows[|rows| - 1], d);
      if exists i :: 0 <= i < |init| && init[i].day == d {
        var i :| 0 <= i < |init| && init[i].day == d;
        assert rows[i].day == d;
      }
      if exists i :: 0 <= i < |rows| && rows[i].day == d {
        var i :| 0 <= i < |rows| && rows[i].day == d;
        if i < |init| {
          assert init[i].day == d;
        }
      }
    }
  }

  /** The items of all the pantry sales among the rows, in order. */
  function PantryItems(rows: seq<Row>): seq<ItemQty>
  {
    if rows == [] then []
    else
      var last := rows[|rows| - 1];
      PantryItems(rows[..|rows| - 1]) + SaleItemsOf(last)
  }

  /** One unit per timesheet booking, under its package name. */
  function Packages(rows: seq<Row>): seq<ItemQty>
  {
    if rows == [] then []
    else
      var last := rows[|rows| - 1];
      Packages(rows[..|rows| - 1]) + PackageOf(last)
  }

  function SaleItemsOf(row: Row): seq<ItemQty>
  {
    if row.PantrySale? then SaleItems(row.itemsSummary) else []
  }

  function PackageOf(row: Row): seq<ItemQty>
  {
    if row.Timesheet? then [ItemQty(PackageName(row.packageType), 1)] else []
  }

  lemma StepCounts(acc: Acc, row: Row)
    ensures Step(acc, row).itemCounts == AddItems(acc.itemCounts, SaleItemsOf(row))
    ensures Step(acc, row).pkgCounts == AddItems(acc.pkgCounts, PackageOf(row))
  {
    if row.Timesheet? {
      var item := ItemQty(PackageName(row.packageType), 1);
      assert AddItems(acc.pkgCounts, [item]) == AddItem(acc.pkgCounts, item);
    }
  }

  /** `itemCounts` counts the items of every pantry summary, and
      `pkgCounts` one per booking under its package name. */
  lemma {:induction false} FoldCounts(acc: Acc, rows: seq<Row>)
    ensures Fold(acc, rows).itemCounts == AddItems(acc.itemCounts, PantryItems(rows))
    ensures Fold(acc, rows).pkgCounts == AddItems(acc.pkgCounts, Packages(rows))
  {
    if rows != [] {
      var init := rows[..|rows| - 1];
      var last := rows[|rows| - 1];
      FoldCounts(acc, init);
      StepCounts(Fold(acc, init), last);
      AddItemsConcat(acc.itemCounts, PantryItems(init), SaleItemsOf(last));
      AddItemsConcat(acc.pkgCounts, Packages(init), PackageOf(last));
    }
  }
}
