/** app/reports/page.tsx, lines 247-268: reading the pantry sales back.
    Each saved `items_summary` is split at commas; every trimmed piece of
    the form "<digits>x <name>" adds its quantity to that name's count. With
    the summaries the pantry form writes, this gives back exactly the cart's
    quantities per name. */
module ItemsSummary {

  import opened Base
  import opened Text
  import opened Pantry

  /** No character that `.` in a regular expression refuses. */
  predicate OneLine(s: string)
  {
    forall i :: 0 <= i < |s| ==> !IsLineTerminator(s[i])
  }

  /** A matched piece: the item's name and its quantity. */
  datatype ItemQty = ItemQty(name: string, qty: int)

  /** `t.match(/^(\d+)x\s(.+)$/)`: digits, an "x", one whitespace character
      and a non-empty rest on one line. The digits can only be the longest
      run of them, since an "x" must follow. */
  function MatchItem(t: string): (r: Option<ItemQty>)
    ensures r.Some? ==> r.value.name != [] && OneLine(r.value.name) && |r.value.name| + 3 <= |t|
    ensures r.Some? ==>
              var d := t[..|t| - |r.value.name| - 2];
              && d != [] && AllDigits(d)
              && t[|d|] == 'x' && IsSpace(t[|d| + 1]) && t[|d| + 2..] == r.value.name
              && r.value.qty == DigitsValue(d)
  {
    var d := DigitPrefix(t);
    if d == [] || |t| < |d| + 3 || t[|d|] != 'x' || !IsSpace(t[|d| + 1]) then None
    else if !OneLine(t[|d| + 2..]) then None
    else Some(ItemQty(t[|d| + 2..], DigitsValue(d)))
  }

  /** Every text of that form is matched, with its digits' value and its
      rest as the name. */
  lemma MatchOfShape(d: string, w: char, name: string)
    requires d != [] && AllDigits(d) && IsSpace(w) && name != [] && OneLine(name)
    ensures MatchItem(d + ['x', w] + name) == Some(ItemQty(name, DigitsValue(d)))
  {
    var t := d + ['x', w] + name;
    assert t == d + (['x', w] + name);
    DigitPrefixOf(d, ['x', w] + name);
    assert t[|d| + 2..] == name;
  }

  /** The matched pieces, in order; the others are dropped. */
  function Matches(parts: seq<string>): (r: seq<ItemQty>)
    ensures |r| <= |parts|
  {
    if parts == [] then []
    else
      var m := MatchItem(Trim(parts[0]));
      (if m.Some? then [m.value] else []) + Matches(parts[1..])
  }

  /** The items of one `items_summary`. */
  function ParseSummary(summary: string): seq<ItemQty>
  {
    Matches(Split(summary, ','))
  }

  // ------------------------------------------------------------ counting

  /** A dictionary of counts, such as `itemCounts` or `pkgCounts`: its
      entries and its keys in insertion order. */
  datatype Counts = Counts(counts: map<string, int>, order: seq<string>)

  function NoCounts(): Counts
  {
    Counts(map[], [])
  }

  /** `counts[name] || 0`. */
  function Get(c: Counts, name: string): int
  {
    if name in c.counts then c.counts[name] else 0
  }

  /** `counts[name] = (counts[name] || 0) + qty`. */
  function AddItem(c: Counts, item: ItemQty): Counts
  {
    var order := if item.name in c.counts then c.order else c.order + [item.name];
    Counts(c.counts[item.name := Get(c, item.name) + item.qty], order)
  }

  /** The matched items added one after the other. */
  function AddItems(c: Counts, items: seq<ItemQty>): Counts
    decreases |items|
  {
    if items == [] then c else AddItems(AddItem(c, items[0]), items[1..])
  }

  /** The total quantity of the items with the name. */
  function CountOf(items: seq<ItemQty>, name: string): int
  {
    if items == [] then 0
    else (if items[0].name == name then items[0].qty else 0) + CountOf(items[1..], name)
  }

  predicate NoDuplicates(keys: seq<string>)
  {
    forall i, j :: 0 <= i < j < |keys| ==> keys[i] != keys[j]
  }

  /** The keys are listed once each, in `order`. */
  ghost predicate Listed(c: Counts)
  {
    && (forall k :: k in c.counts <==> k in c.order)
    && NoDuplicates(c.order)
  }

  /** Adding items raises each name's count by exactly their quantities
      under that name; a name gets an entry iff it had one or occurs among
      the items; the keys stay listed once each. */
  lemma {:induction false} AddItemsCounts(c: Counts, items: seq<ItemQty>, name: string)
    requires Listed(c)
    ensures Listed(AddItems(c, items))
    ensures Get(AddItems(c, items), name) == Get(c, name) + CountOf(items, name)
    ensures name in AddItems(c, items).counts <==>
              name in c.counts || exists i :: 0 <= i < |items| && items[i].name == name
    decreases |items|
  {
    if items != [] {
      var c' := AddItem(c, items[0]);
      assert Listed(c') by {
        forall i, j | 0 <= i < j < |c'.order| ensures c'.order[i] != c'.order[j] {
          if j == |c.order| {
            assert c'.order[j] == items[0].name && items[0].name !in c.counts;
            assert c'.order[i] == c.order[i];
          }
        }
      }
      AddItemsCounts(c', items[1..], name);
      if name in AddItems(c, items).counts && name !in c.counts && name != items[0].name {
        var i :| 0 <= i < |items[1..]| && items[1..][i].name == name;
        assert items[i + 1].name == name;
      }
      if exists i :: 0 <= i < |items| && items[i].name == name {
        var i :| 0 <= i < |items| && items[i].name == name;
        if i > 0 {
          assert items[1..][i - 1].name == name;
        }
      }
    }
  }

  /** The sum of the counts under the listed keys. */
  function SumKeys(m: map<string, int>, keys: seq<string>): int
  {
    if keys == [] then 0
    else SumKeys(m, keys[..|keys| - 1]) + (if keys[|keys| - 1] in m then m[keys[|keys| - 1]] else 0)
  }

  /** The sum of all the counts. */
  function CountSum(c: Counts): int
  {
    SumKeys(c.counts, c.order)
  }

  lemma {:induction false} SumKeysUpdate(m: map<string, int>, keys: seq<string>, k: string, v: int)
    requires NoDuplicates(keys)
    ensures SumKeys(m[k := v], keys)
         == SumKeys(m, keys) + (if k in keys then v - (if k in m then m[k] else 0) else 0)
  {
    if keys != [] {
      var init := keys[..|keys| - 1];
      SumKeysUpdate(m, init, k, v);
      assert k in keys <==> k in init || k == keys[|keys| - 1];
      assert keys[|keys| - 1] == k ==> k !in init;
    }
  }

  /** Adding one item raises the sum of the counts by its quantity. */
  lemma AddItemSum(c: Counts, item: ItemQty)
    requires Listed(c)
    ensures CountSum(AddItem(c, item)) == CountSum(c) + item.qty
  {
    var c' := AddItem(c, item);
    if item.name in c.counts {
      SumKeysUpdate(c.counts, c.order, item.name, Get(c, item.name) + item.qty);
    } else {
      SumKeysUpdate(c.counts, c.order, item.name, item.qty);
      assert c'.order[..|c'.order| - 1] == c.order;
    }
  }

  // ------------------------------------------------------------ round trip

  /** A cart entry whose rendering reads back: a name that is non-empty,
      on one line, without commas and without surrounding whitespace, and a
      quantity that is not negative. */
  predicate Readable(e: CartItem)
  {
    e.name != [] && OneLine(e.name) && ',' !in e.name && Trimmed(e.name) && e.quantity >= 0
  }

  /** What the cart sold: each entry's name and quantity, in cart order. */
  function Sold(cart: seq<CartItem>): (r: seq<ItemQty>)
    ensures |r| == |cart|
    ensures forall i :: 0 <= i < |cart| ==> r[i] == ItemQty(cart[i].name, cart[i].quantity)
  {
    if cart == [] then [] else [ItemQty(cart[0].name, cart[0].quantity)] + Sold(cart[1..])
  }

  /** The total quantity of the cart's entries with the name. */
  function CartQuantity(cart: seq<CartItem>, name: string): int
  {
    if cart == [] then 0
    else (if cart[0].name == name then cart[0].quantity else 0) + CartQuantity(cart[1..], name)
  }

  lemma DigitsHaveNoComma(s: string)
    requires AllDigits(s)
    ensures ',' !in s
  {
  }

  /** One rendered entry is read back, whether or not a space precedes
      it. */
  lemma ReadEntry(e: CartItem, pad: string)
    requires Readable(e) && (pad == "" || pad == " ")
    ensures ',' !in Render(e)
    ensures MatchItem(Trim(pad + Render(e))) == Some(ItemQty(e.name, e.quantity))
  {
    var d := NatText(e.quantity);
    var r := Render(e);
    assert r == d + ['x', ' '] + e.name;
    DigitsHaveNoComma(d);
    assert ',' !in ['x', ' '];
    assert r[|r| - 1] == e.name[|e.name| - 1];
    assert Trimmed(r);
    TrimAfterBlanks(pad, r);
    DigitsValueOfNatText(e.quantity);
    MatchOfShape(d, ' ', e.name);
  }

  lemma {:induction false} MatchesEach(parts: seq<string>, out: seq<ItemQty>)
    requires |parts| == |out|
    requires forall i :: 0 <= i < |parts| ==> MatchItem(Trim(parts[i])) == Some(out[i])
    ensures Matches(parts) == out
  {
    if parts != [] {
      MatchesEach(parts[1..], out[1..]);
      assert [out[0]] + out[1..] == out;
    }
  }

  lemma EmptySummary()
    ensures ParseSummary(Summary([])) == []
  {
    assert Summary([]) == "";
    assert Split("", ',') == [""];
    assert Trim("") == "";
    assert Matches([""]) == [];
  }

  /** The summary splits at its commas into the rendered entries, each
      after the first preceded by a space. */
  lemma SummaryPieces(cart: seq<CartItem>)
    requires cart != [] && forall i :: 0 <= i < |cart| ==> Readable(cart[i])
    ensures |Split(Summary(cart), ',')| == |cart|
    ensures Split(Summary(cart), ',')[0] == Render(cart[0])
    ensures forall i :: 1 <= i < |cart| ==> Split(Summary(cart), ',')[i] == " " + Render(cart[i])
  {
    var xs := Rendered(cart);
    forall i | 0 <= i < |xs| ensures ',' !in xs[i] {
      ReadEntry(cart[i], "");
    }
    assert [','] + " " == ", ";
    SplitJoin(xs, ',', " ");
  }

  /** The pantry form's summary, read by the report, gives back the cart:
      every entry's name and quantity, in order. */
  lemma SummaryRoundTrip(cart: seq<CartItem>)
    requires forall i :: 0 <= i < |cart| ==> Readable(cart[i])
    ensures ParseSummary(Summary(cart)) == Sold(cart)
  {
    if cart == [] {
      EmptySummary();
    } else {
      var parts := Split(Summary(cart), ',');
      SummaryPieces(cart);
      forall i | 0 <= i < |parts| ensures MatchItem(Trim(parts[i])) == Some(Sold(cart)[i]) {
        if i == 0 {
          ReadEntry(cart[0], "");
          assert "" + Render(cart[0]) == Render(cart[0]);
        } else {
          ReadEntry(cart[i], " ");
        }
      }
      MatchesEach(parts, Sold(cart));
    }
  }

  lemma {:induction false} CountOfSold(cart: seq<CartItem>, name: string)
    ensures CountOf(Sold(cart), name) == CartQuantity(cart, name)
  {
    if cart != [] {
      CountOfSold(cart[1..], name);
      assert Sold(cart)[1..] == Sold(cart[1..]);
    }
  }

  /** Counting one order's summary from empty gives, for every name, the
      cart's quantity under that name, and an entry exactly for the names in
      the cart. */
  lemma SummaryCounts(cart: seq<CartItem>, name: string)
    requires forall i :: 0 <= i < |cart| ==> Readable(cart[i])
    ensures Get(AddItems(NoCounts(), ParseSummary(Summary(cart))), name) == CartQuantity(cart, name)
    ensures name in AddItems(NoCounts(), ParseSummary(Summary(cart))).counts <==>
              exists i :: 0 <= i < |cart| && cart[i].name == name
  {
    SummaryRoundTrip(cart);
    AddItemsCounts(NoCounts(), Sold(cart), name);
    CountOfSold(cart, name);
    if exists i :: 0 <= i < |cart| && cart[i].name == name {
      var i :| 0 <= i < |cart| && cart[i].name == name;
      assert Sold(cart)[i].name == name;
    }
  }
}
