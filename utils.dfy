/** lib/utils.ts: the generic seat rate (`calculateDynamicRate`) and the text
    that `downloadCSV` builds before handing it to the browser. */
module Pricing {

  import opened Base

  /** The rate before any discount: the base price per hour for an hourly
      package, the flat price otherwise. */
  function ListPrice(basePrice: real, isHourly: bool, inputHours: real): real
  {
    if isHourly then basePrice * inputHours else basePrice
  }

  /** Students and board examinees pay 92% of the list price; the two flags
      are alternatives, never added up. */
  function DiscountFactor(isStudent: bool, isExaminee: bool): real
  {
    if isStudent || isExaminee then 0.92 else 1.0
  }

  /** `calculateDynamicRate`: the list price, less 8% for a student or an
      examinee, rounded to the nearest peso as `Math.round` does. The
      result is within half a peso of the exact discounted price. */
  function DynamicRate(basePrice: real, isHourly: bool, inputHours: real,
                       isStudent: bool, isExaminee: bool): (r: int)
    ensures var exact := ListPrice(basePrice, isHourly, inputHours) * DiscountFactor(isStudent, isExaminee);
            r as real - 0.5 <= exact < r as real + 0.5
  {
    var rate := if isHourly then basePrice * inputHours else basePrice;
    var discounted := if isStudent || isExaminee then rate - rate * 0.08 else rate;
    Round(discounted)
  }

  lemma FixedPriceIgnoresHours(basePrice: real, h1: real, h2: real, isStudent: bool, isExaminee: bool)
    ensures DynamicRate(basePrice, false, h1, isStudent, isExaminee)
         == DynamicRate(basePrice, false, h2, isStudent, isExaminee)
  {
  }

  lemma HourlyWithoutDiscount(basePrice: real, inputHours: real)
    ensures DynamicRate(basePrice, true, inputHours, false, false) == Round(basePrice * inputHours)
  {
  }

  /** Student, examinee or both: one and the same 8% discount. */
  lemma DiscountFlagsAreAlternatives(basePrice: real, isHourly: bool, inputHours: real)
    ensures DynamicRate(basePrice, isHourly, inputHours, true, false)
         == DynamicRate(basePrice, isHourly, inputHours, false, true)
         == DynamicRate(basePrice, isHourly, inputHours, true, true)
  {
  }

  /** A discounted rate is the rounded 92% of the unrounded list price, and
      for a non-negative list price it never exceeds the undiscounted rate. */
  lemma DiscountedRate(basePrice: real, isHourly: bool, inputHours: real)
    ensures DynamicRate(basePrice, isHourly, inputHours, true, false)
         == Round(0.92 * ListPrice(basePrice, isHourly, inputHours))
    ensures 0.0 <= basePrice && 0.0 <= inputHours ==>
              (DynamicRate(basePrice, isHourly, inputHours, true, false)
               <= DynamicRate(basePrice, isHourly, inputHours, false, false))
  {
    var list := ListPrice(basePrice, isHourly, inputHours);
    assert list - list * 0.08 == 0.92 * list;
    if 0.0 <= basePrice && 0.0 <= inputHours {
      assert 0.0 <= list by {
        if isHourly {
          assert 0.0 <= basePrice * inputHours;
        }
      }
      RoundMonotone(0.92 * list, list);
    }
  }

  /** A fixed 1000-peso package for a student comes to 920 pesos. */
  lemma StudentFixedPackageExample(anyHours: real)
    ensures DynamicRate(1000.0, false, anyHours, true, false) == 920
  {
    assert 1000.0 - 1000.0 * 0.08 == 920.0;
    RoundOfInt(920);
  }
}

module Csv {

  import opened Base
  import opened Text

  /** A cell of an exported row: a string, another value already in the text
      JavaScript gives it (a number, a boolean), or `null`/`undefined`,
      which `join` renders as nothing. */
  datatype Value = Str(s: string) | Shown(text: string) | Missing

  /** An exported object: its own keys, in order, with their values. */
  type Row = seq<(string, Value)>

  function Keys(row: Row): seq<string>
  {
    if row == [] then [] else [row[0].0] + Keys(row[1..])
  }

  /** `row[header]`: the value under that key, `undefined` when absent. */
  function Lookup(row: Row, key: string): Value
  {
    if row == [] then Missing
    else if row[0].0 == key then row[0].1
    else Lookup(row[1..], key)
  }

  /** The text a value has, before any quoting. */
  function Rendered(v: Value): string
  {
    match v
    case Str(s) => s
    case Shown(t) => t
    case Missing => ""
  }

  /** A string value that holds a comma is wrapped in double quotes; every
      other value goes out as it is. */
  function Cell(v: Value): (r: string)
    ensures v.Str? && ',' in v.s ==> r == ['"'] + Rendered(v) + ['"']
    ensures !(v.Str? && ',' in v.s) ==> r == Rendered(v)
  {
    if v.Str? && ',' in v.s then "\"" + v.s + "\"" else Rendered(v)
  }

  function Cells(row: Row, headers: seq<string>): (r: seq<string>)
    ensures |r| == |headers|
    ensures forall j :: 0 <= j < |headers| ==> r[j] == Cell(Lookup(row, headers[j]))
  {
    if headers == [] then [] else [Cell(Lookup(row, headers[0]))] + Cells(row, headers[1..])
  }

  /** One exported row: its values in header order, joined by commas. */
  function Line(row: Row, headers: seq<string>): string
  {
    Join(Cells(row, headers), ",")
  }

  function Lines(data: seq<Row>, headers: seq<string>): (r: seq<string>)
    ensures |r| == |data|
    ensures forall i :: 0 <= i < |data| ==> r[i] == Line(data[i], headers)
  {
    if data == [] then [] else [Line(data[0], headers)] + Lines(data[1..], headers)
  }

  /** The CSV text of `downloadCSV`: the first row's keys as the header line,
      then one line per row, joined by newlines; nothing for no rows. */
  function Export(data: seq<Row>): (r: Option<string>)
    ensures r.None? <==> data == []
  {
    if data == [] then None
    else
      var headers := Keys(data[0]);
      Some(Join([Join(headers, ",")] + Lines(data, headers), "\n"))
  }

  predicate NoNewline(s: string)
  {
    '\n' !in s
  }

  lemma {:induction false} NoNewlineInJoin(xs: seq<string>)
    requires forall i :: 0 <= i < |xs| ==> NoNewline(xs[i])
    ensures NoNewline(Join(xs, ","))
  {
    if |xs| > 1 {
      NoNewlineInJoin(xs[1..]);
    }
  }

  lemma NoNewlineInCell(v: Value)
    requires NoNewline(Rendered(v))
    ensures NoNewline(Cell(v))
  {
  }

  /** The values of a row in header order, as text. */
  function Values(row: Row, headers: seq<string>): (r: seq<string>)
    ensures |r| == |headers|
  {
    if headers == [] then [] else [Rendered(Lookup(row, headers[0]))] + Values(row, headers[1..])
  }

  predicate Plain(s: string)
  {
    ',' !in s && NoNewline(s)
  }

  predicate PlainRow(row: Row)
  {
    forall j :: 0 <= j < |row| ==> Plain(row[j].0) && Plain(Rendered(row[j].1))
  }

  /** Reading the export back: split on newlines it has one line for the
      header and one per row; the header line splits on commas into the
      first row's keys, and a row line into the row's values in header
      order, provided no key and no value holds a comma or a newline. */
  lemma {:induction false} ExportReadBack(data: seq<Row>)
    requires data != [] && data[0] != []
    requires forall i :: 0 <= i < |data| ==> PlainRow(data[i])
    ensures var lines := Split(Export(data).value, '\n');
            && |lines| == |data| + 1
            && Split(lines[0], ',') == Keys(data[0])
            && forall i :: 0 <= i < |data| ==> Split(lines[i + 1], ',') == Values(data[i], Keys(data[0]))
  {
    var headers := Keys(data[0]);
    var rows := Lines(data, headers);
    var all := [Join(headers, ",")] + rows;
    assert Export(data) == Some(Join(all, "\n"));
    KeysOf(data[0]);
    assert forall j :: 0 <= j < |headers| ==> Plain(headers[j]);
    NoNewlineInJoin(headers);
    SplitLine(headers);
    forall i | 0 <= i < |data|
      ensures NoNewline(rows[i])
      ensures Split(rows[i], ',') == Values(data[i], headers)
    {
      RowReadBack(data[i], headers);
    }
    LinesReadBack(all);
  }

  lemma {:induction false} LinesReadBack(all: seq<string>)
    requires all != []
    requires forall k :: 0 <= k < |all| ==> NoNewline(all[k])
    ensures Split(Join(all, "\n"), '\n') == all
  {
    assert ['\n'] + "" == "\n";
    SplitJoin(all, '\n', "");
    var lines := Split(Join(all, "\n"), '\n');
    forall k | 0 <= k < |all| ensures lines[k] == all[k] {
      if k >= 1 {
        assert lines[k] == "" + all[k];
        assert "" + all[k] == all[k];
      }
    }
  }

  lemma {:induction false} KeysOf(row: Row)
    ensures |Keys(row)| == |row|
    ensures forall j :: 0 <= j < |row| ==> Keys(row)[j] == row[j].0
  {
    if row != [] {
      KeysOf(row[1..]);
    }
  }

  /** A looked-up value of a plain row has plain text. */
  lemma {:induction false} LookupPlain(row: Row, key: string)
    requires PlainRow(row)
    ensures Plain(Rendered(Lookup(row, key)))
  {
    if row != [] && row[0].0 != key {
      LookupPlain(row[1..], key);
    }
  }

  lemma {:induction false} CellsOfPlainRow(row: Row, headers: seq<string>)
    requires PlainRow(row)
    ensures Cells(row, headers) == Values(row, headers)
    ensures forall j :: 0 <= j < |headers| ==> Plain(Values(row, headers)[j])
  {
    if headers != [] {
      LookupPlain(row, headers[0]);
      CellsOfPlainRow(row, headers[1..]);
    }
  }

  lemma {:induction false} RowReadBack(row: Row, headers: seq<string>)
    requires PlainRow(row) && headers != []
    ensures NoNewline(Line(row, headers))
    ensures Split(Line(row, headers), ',') == Values(row, headers)
  {
    CellsOfPlainRow(row, headers);
    NoNewlineInJoin(Values(row, headers));
    SplitLine(Values(row, headers));
  }

  lemma {:induction false} SplitLine(cells: seq<string>)
    requires forall j :: 0 <= j < |cells| ==> ',' !in cells[j]
    ensures Split(Join(cells, ","), ',') == if cells == [] then [""] else cells
  {
    if cells != [] {
      assert [','] + "" == ",";
      SplitJoin(cells, ',', "");
      var parts := Split(Join(cells, ","), ',');
      forall j | 0 <= j < |cells| ensures parts[j] == cells[j] {
        if j >= 1 {
          assert parts[j] == "" + cells[j];
          assert "" + cells[j] == cells[j];
        }
      }
    }
  }
}
