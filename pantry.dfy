/** components/PantryOrderForm.tsx: the pantry cart. Items are picked from
    the pantry list and added to the cart (merging with an entry of the same
    id), entries are removed by position, and the order is saved with its
    total amount, its total quantity and a summary such as
    "2x Oreo, 1x Coke". */
module Pantry {

  import opened Base
  import opened Text

  /** A row of the pantry items table. */
  datatype PantryItem = PantryItem(id: string, name: string, price: real)

  /** A cart entry: the item's columns and how many of it. */
  datatype CartItem = CartItem(id: string, name: string, price: real, quantity: int)

  /** The quantity box: `parseInt` of the typed text, or 1 when that is NaN
      or 0. A negative number is kept. */
  function QuantityInput(text: string): (q: int)
    ensures q != 0
    ensures ParseInt(text).Some? && ParseInt(text).value != 0 ==> q == ParseInt(text).value
    ensures ParseInt(text).None? || ParseInt(text).value == 0 ==> q == 1
  {
    var parsed := ParseInt(text);
    if parsed.None? || parsed.value == 0 then 1 else parsed.value
  }

  /** `items.find`: the first item with the id. */
  function FindItem(items: seq<PantryItem>, id: string): (r: Option<PantryItem>)
    ensures r.Some? <==> exists i :: 0 <= i < |items| && items[i].id == id
    ensures r.Some? ==> r.value in items && r.value.id == id
  {
    if items == [] then None
    else if items[0].id == id then Some(items[0])
    else FindItem(items[1..], id)
  }

  /** `cart.findIndex`: the position of the first entry with the id, or -1. */
  function IndexOfId(cart: seq<CartItem>, id: string): (k: int)
    ensures -1 <= k < |cart|
    ensures k == -1 <==> forall i :: 0 <= i < |cart| ==> cart[i].id != id
    ensures k >= 0 ==> cart[k].id == id && forall i :: 0 <= i < k ==> cart[i].id != id
  {
    if cart == [] then -1
    else if cart[0].id == id then 0
    else
      var k := IndexOfId(cart[1..], id);
      if k == -1 then -1 else k + 1
  }

  /** Whether `addToCart` gets past its two early returns. */
  predicate Adds(items: seq<PantryItem>, selectedId: string)
  {
    selectedId != "" && FindItem(items, selectedId).Some?
  }

  /** The cart after `addToCart` (lines 62-79). */
  function Added(cart: seq<CartItem>, items: seq<PantryItem>, selectedId: string, quantity: int): seq<CartItem>
  {
    if !Adds(items, selectedId) then cart
    else
      var item := FindItem(items, selectedId).value;
      var k := IndexOfId(cart, selectedId);
      if k >= 0 then Merged(cart, k, quantity)
      else cart + [CartItem(item.id, item.name, item.price, quantity)]
  }

  /** The cart with entry `k` holding `quantity` more. */
  function Merged(cart: seq<CartItem>, k: int, quantity: int): seq<CartItem>
    requires 0 <= k < |cart|
  {
    cart[k := Grown(cart[k], quantity)]
  }

  /** `quantity += n` on one entry. */
  function Grown(e: CartItem, quantity: int): CartItem
  {
    e.(quantity := e.quantity + quantity)
  }

  /** Where `splice(index, 1)` starts on a list of length `n`: a negative
      index counts from the end, and no start lies past the end. */
  function SpliceStart(n: nat, index: int): (start: nat)
    ensures start <= n
  {
    if index < 0 then (if n + index < 0 then 0 else n + index)
    else if index > n then n else index
  }

  /** The cart after `removeFromCart(index)`: `splice(index, 1)`. */
  function RemovedAt(cart: seq<CartItem>, index: int): seq<CartItem>
  {
    var start := SpliceStart(|cart|, index);
    if start < |cart| then cart[..start] + cart[start + 1..] else cart
  }

  /** What one entry costs: its price times its quantity. */
  function Amount(e: CartItem): real
  {
    Cost(e.price, e.quantity)
  }

  /** A price times a quantity. */
  function Cost(price: real, quantity: int): real
  {
    price * quantity as real
  }

  /** `calculateTotal`: the sum of price times quantity. */
  function Total(cart: seq<CartItem>): real
  {
    if cart == [] then 0.0 else Amount(cart[0]) + Total(cart[1..])
  }

  /** `totalQty`: the sum of the quantities. */
  function TotalQuantity(cart: seq<CartItem>): int
  {
    if cart == [] then 0
    else cart[0].quantity + TotalQuantity(cart[1..])
  }

  /** One entry of the summary: `${quantity}x ${name}`. */
  function Render(e: CartItem): string
  {
    IntText(e.quantity) + "x " + e.name
  }

  function Rendered(cart: seq<CartItem>): (r: seq<string>)
    ensures |r| == |cart| && forall i :: 0 <= i < |cart| ==> r[i] == Render(cart[i])
  {
    if cart == [] then [] else [Render(cart[0])] + Rendered(cart[1..])
  }

  /** `items_summary`: the rendered entries joined by ", ", in cart order. */
  function Summary(cart: seq<CartItem>): string
  {
    Join(Rendered(cart), ", ")
  }

  /** No two entries share an id. */
  predicate DistinctIds(cart: seq<CartItem>)
  {
    forall i, j :: 0 <= i < j < |cart| ==> cart[i].id != cart[j].id
  }

  /** Every entry carries the columns of the item its id finds. */
  predicate FromItems(cart: seq<CartItem>, items: seq<PantryItem>)
  {
    forall i :: 0 <= i < |cart| ==>
      FindItem(items, cart[i].id) == Some(PantryItem(cart[i].id, cart[i].name, cart[i].price))
  }

  // ------------------------------------------------------------ the form

  class OrderForm {
    /** The pantry list, fetched once when the form opens. */
    const items: seq<PantryItem>
    var cart: seq<CartItem>
    var selectedItemId: string
    var quantity: int

    predicate Valid()
      reads this
    {
      DistinctIds(cart) && FromItems(cart, items)
    }

    constructor(items: seq<PantryItem>)
      ensures Valid()
      ensures this.items == items && cart == [] && selectedItemId == "" && quantity == 1
    {
      this.items := items;
      cart := [];
      selectedItemId := "";
      quantity := 1;
    }

    /** Picking an item in the combobox. */
    method Select(id: string)
      modifies this
      ensures selectedItemId == id && cart == old(cart) && quantity == old(quantity)
    {
      selectedItemId := id;
    }

    /** Typing in the quantity box. */
    method SetQuantity(text: string)
      modifies this
      ensures quantity == QuantityInput(text) && quantity != 0
      ensures cart == old(cart) && selectedItemId == old(selectedItemId)
    {
      quantity := QuantityInput(text);
    }

    /** `addToCart`: with no selection or an unknown id nothing happens;
        otherwise the entry with that id gains the quantity, or a new entry
        is appended, and the selection and quantity are reset. */
    method AddToCart()
      requires Valid()
      modifies this
      ensures Valid()
      ensures cart == Added(old(cart), items, old(selectedItemId), old(quantity))
      ensures Adds(items, old(selectedItemId)) ==> selectedItemId == "" && quantity == 1
      ensures !Adds(items, old(selectedItemId)) ==> selectedItemId == old(selectedItemId) && quantity == old(quantity)
    {
      if selectedItemId == "" {
        return;
      }
      var item := FindItem(items, selectedItemId);
      if item.None? {
        return;
      }
      AddedKeepsInvariant(cart, items, selectedItemId, quantity);
      var existingIndex := IndexOfId(cart, selectedItemId);
      if existingIndex >= 0 {
        AddedMerges(cart, items, selectedItemId, quantity);
        cart := cart[existingIndex := Grown(cart[existingIndex], quantity)];
      } else {
        AddedAppends(cart, items, selectedItemId, quantity);
        cart := cart + [CartItem(item.value.id, item.value.name, item.value.price, quantity)];
      }
      selectedItemId := "";
      quantity := 1;
    }

    /** `removeFromCart(index)`. */
    method RemoveFromCart(index: int)
      requires Valid()
      modifies this
      ensures Valid()
      ensures cart == RemovedAt(old(cart), index)
      ensures selectedItemId == old(selectedItemId) && quantity == old(quantity)
    {
      RemovedKeepsInvariant(cart, items, index);
      cart := RemovedAt(cart, index);
    }
  }

  // ------------------------------------------------------------ adding

  /** With no selection, or an id the pantry list does not have, the cart
      is left as it is. */
  lemma AddWithoutItem(cart: seq<CartItem>, items: seq<PantryItem>, selectedId: string, quantity: int)
    requires selectedId == "" || forall i :: 0 <= i < |items| ==> items[i].id != selectedId
    ensures Added(cart, items, selectedId, quantity) == cart
  {
  }

  /** An item already in the cart: its entry gains the quantity, in its
      place; the cart keeps its length and every other entry. */
  lemma AddExisting(cart: seq<CartItem>, items: seq<PantryItem>, k: int, quantity: int)
    requires 0 <= k < |cart| && cart[k].id != "" && cart[k].id in IdsOf(items)
    requires DistinctIds(cart)
    ensures var r := Added(cart, items, cart[k].id, quantity);
            && |r| == |cart|
            && r[k] == cart[k].(quantity := cart[k].quantity + quantity)
            && forall i :: 0 <= i < |cart| && i != k ==> r[i] == cart[i]
  {
    var id := cart[k].id;
    var j :| 0 <= j < |items| && items[j].id == id;
    assert IndexOfId(cart, id) == k;
  }

  /** An item not yet in the cart is appended, once, at the end, with the
      chosen quantity and the columns of the item. */
  lemma AddNew(cart: seq<CartItem>, items: seq<PantryItem>, id: string, quantity: int)
    requires id != "" && id in IdsOf(items)
    requires forall i :: 0 <= i < |cart| ==> cart[i].id != id
    ensures FindItem(items, id).Some?
    ensures var item := FindItem(items, id).value;
            Added(cart, items, id, quantity) == cart + [CartItem(id, item.name, item.price, quantity)]
  {
    var j :| 0 <= j < |items| && items[j].id == id;
  }

  function IdsOf(items: seq<PantryItem>): (ids: set<string>)
    ensures forall id :: id in ids <==> exists i :: 0 <= i < |items| && items[i].id == id
  {
    set i | 0 <= i < |items| :: items[i].id
  }

  /** Adding keeps the ids distinct and every entry true to the pantry
      list. */
  lemma AddedKeepsInvariant(cart: seq<CartItem>, items: seq<PantryItem>, selectedId: string, quantity: int)
    requires DistinctIds(cart) && FromItems(cart, items)
    ensures DistinctIds(Added(cart, items, selectedId, quantity))
    ensures FromItems(Added(cart, items, selectedId, quantity), items)
  {
    if Adds(items, selectedId) {
      var item := FindItem(items, selectedId).value;
      var k := IndexOfId(cart, selectedId);
      if k >= 0 {
        AddedMerges(cart, items, selectedId, quantity);
        MergedKeepsInvariant(cart, items, k, quantity);
      } else {
        AddedAppends(cart, items, selectedId, quantity);
        AppendedKeepsInvariant(cart, items, CartItem(item.id, item.name, item.price, quantity));
      }
    }
  }

  lemma MergedKeepsInvariant(cart: seq<CartItem>, items: seq<PantryItem>, k: int, quantity: int)
    requires DistinctIds(cart) && FromItems(cart, items) && 0 <= k < |cart|
    ensures DistinctIds(Merged(cart, k, quantity)) && FromItems(Merged(cart, k, quantity), items)
  {
    var r := Merged(cart, k, quantity);
    assert forall i :: 0 <= i < |r| ==> r[i].id == cart[i].id && r[i].name == cart[i].name && r[i].price == cart[i].price;
  }

  lemma AppendedKeepsInvariant(cart: seq<CartItem>, items: seq<PantryItem>, e: CartItem)
    requires DistinctIds(cart) && FromItems(cart, items)
    requires forall i :: 0 <= i < |cart| ==> cart[i].id != e.id
    requires FindItem(items, e.id) == Some(PantryItem(e.id, e.name, e.price))
    ensures DistinctIds(cart + [e]) && FromItems(cart + [e], items)
  {
    var r := cart + [e];
    assert forall i :: 0 <= i < |cart| ==> r[i] == cart[i];
    assert r[|cart|] == e;
  }

  /** Adding an item of the list raises the total amount by its price times
      the quantity and the total quantity by the quantity, whether it merged
      or appended. */
  lemma {:induction false} AddedTotals(cart: seq<CartItem>, items: seq<PantryItem>, selectedId: string, quantity: int)
    requires FromItems(cart, items)
    requires Adds(items, selectedId)
    ensures Total(Added(cart, items, selectedId, quantity))
         == Total(cart) + Cost(FindItem(items, selectedId).value.price, quantity)
    ensures TotalQuantity(Added(cart, items, selectedId, quantity)) == TotalQuantity(cart) + quantity
  {
    var k := IndexOfId(cart, selectedId);
    if k >= 0 {
      MergedPrice(cart, items, k);
    }
    AddedTotalsAtPrice(cart, items, selectedId, quantity);
  }

  lemma AddedMerges(cart: seq<CartItem>, items: seq<PantryItem>, selectedId: string, quantity: int)
    requires Adds(items, selectedId) && IndexOfId(cart, selectedId) >= 0
    ensures var k := IndexOfId(cart, selectedId);
            Added(cart, items, selectedId, quantity) == Merged(cart, k, quantity)
  {
  }

  /** `AddedTotals`, given only that a merged entry has the item's price. */
  lemma AddedTotalsAtPrice(cart: seq<CartItem>, items: seq<PantryItem>, selectedId: string, quantity: int)
    requires Adds(items, selectedId)
    requires var k := IndexOfId(cart, selectedId);
             k >= 0 ==> cart[k].price == FindItem(items, selectedId).value.price
    ensures Total(Added(cart, items, selectedId, quantity))
         == Total(cart) + Cost(FindItem(items, selectedId).value.price, quantity)
    ensures TotalQuantity(Added(cart, items, selectedId, quantity)) == TotalQuantity(cart) + quantity
  {
    var item := FindItem(items, selectedId).value;
    var k := IndexOfId(cart, selectedId);
    if k >= 0 {
      AddedMerges(cart, items, selectedId, quantity);
      MergedTotals(cart, k, quantity, item.price);
    } else {
      AddedAppends(cart, items, selectedId, quantity);
      AppendTotals(cart, CartItem(item.id, item.name, item.price, quantity));
    }
  }

  lemma MergedTotals(cart: seq<CartItem>, k: int, quantity: int, price: real)
    requires 0 <= k < |cart| && cart[k].price == price
    ensures Total(Merged(cart, k, quantity)) == Total(cart) + Cost(price, quantity)
    ensures TotalQuantity(Merged(cart, k, quantity)) == TotalQuantity(cart) + quantity
  {
    MergeTotals(cart, k, quantity);
    AmountGrows(cart[k], quantity, price);
  }

  lemma AddedAppends(cart: seq<CartItem>, items: seq<PantryItem>, selectedId: string, quantity: int)
    requires Adds(items, selectedId) && IndexOfId(cart, selectedId) < 0
    ensures var item := FindItem(items, selectedId).value;
            Added(cart, items, selectedId, quantity) == cart + [CartItem(item.id, item.name, item.price, quantity)]
  {
  }

  lemma MergedPrice(cart: seq<CartItem>, items: seq<PantryItem>, k: int)
    requires FromItems(cart, items) && 0 <= k < |cart|
    ensures FindItem(items, cart[k].id).value.price == cart[k].price
  {
  }

  /** Merging into entry `k` adds its price times the quantity. */
  lemma MergeTotals(cart: seq<CartItem>, k: int, quantity: int)
    requires 0 <= k < |cart|
    ensures Total(Merged(cart, k, quantity)) == Total(cart) - Amount(cart[k]) + Amount(Grown(cart[k], quantity))
    ensures TotalQuantity(Merged(cart, k, quantity)) == TotalQuantity(cart) + quantity
  {
    UpdateTotals(cart, k, Grown(cart[k], quantity));
  }

  /** Appending an entry adds its amount and its quantity. */
  lemma AppendTotals(cart: seq<CartItem>, e: CartItem)
    ensures Total(cart + [e]) == Total(cart) + Amount(e)
    ensures TotalQuantity(cart + [e]) == TotalQuantity(cart) + e.quantity
  {
    TotalsConcat(cart, [e]);
    assert Total([e]) == Amount(e) + Total([]);
    assert [e][1..] == [];
  }

  lemma AmountGrows(e: CartItem, quantity: int, price: real)
    requires e.price == price
    ensures Amount(Grown(e, quantity)) == Amount(e) + Cost(price, quantity)
  {
    assert (e.quantity + quantity) as real == e.quantity as real + quantity as real;
  }

  // ------------------------------------------------------------ removing

  /** Removing a position inside the cart drops exactly that entry; the
      others keep their order. A position past the end changes nothing, and
      a negative one counts from the end. */
  lemma RemoveAtIndex(cart: seq<CartItem>, index: int)
    ensures 0 <= index < |cart| ==>
              && |RemovedAt(cart, index)| == |cart| - 1
              && (forall i :: 0 <= i < index ==> RemovedAt(cart, index)[i] == cart[i])
              && (forall i :: index <= i < |cart| - 1 ==> RemovedAt(cart, index)[i] == cart[i + 1])
    ensures index >= |cart| ==> RemovedAt(cart, index) == cart
    ensures index < 0 && |cart| + index >= 0 ==> RemovedAt(cart, index) == RemovedAt(cart, |cart| + index)
    ensures multiset(RemovedAt(cart, index)) <= multiset(cart)
  {
    var start := SpliceStart(|cart|, index);
    if start < |cart| {
      assert RemovedAt(cart, index) == cart[..start] + cart[start + 1..];
      RemoveInside(cart, start);
    } else {
      assert RemovedAt(cart, index) == cart;
    }
    if index < 0 && |cart| + index >= 0 {
      assert SpliceStart(|cart|, |cart| + index) == start;
    }
  }

  /** Dropping the entry at `start` keeps the others, in order. */
  lemma RemoveInside(cart: seq<CartItem>, start: int)
    requires 0 <= start < |cart|
    ensures var r := cart[..start] + cart[start + 1..];
            && |r| == |cart| - 1
            && (forall i :: 0 <= i < start ==> r[i] == cart[i])
            && (forall i :: start <= i < |cart| - 1 ==> r[i] == cart[i + 1])
            && multiset(r) <= multiset(cart)
  {
    assert cart == cart[..start] + [cart[start]] + cart[start + 1..];
  }

  lemma RemovedKeepsInvariant(cart: seq<CartItem>, items: seq<PantryItem>, index: int)
    requires DistinctIds(cart) && FromItems(cart, items)
    ensures DistinctIds(RemovedAt(cart, index)) && FromItems(RemovedAt(cart, index), items)
  {
    var r := RemovedAt(cart, index);
    var start := SpliceStart(|cart|, index);
    if start < |cart| {
      assert forall i :: 0 <= i < |r| ==> r[i] == cart[if i < start then i else i + 1];
    }
  }

  /** Removing an entry takes its price times quantity off the total, and
      its quantity off the total quantity. */
  lemma RemovedTotals(cart: seq<CartItem>, index: int)
    requires 0 <= index < |cart|
    ensures Total(RemovedAt(cart, index)) == Total(cart) - Amount(cart[index])
    ensures TotalQuantity(RemovedAt(cart, index)) == TotalQuantity(cart) - cart[index].quantity
  {
    RemovedAtInside(cart, index);
    DropTotals(cart[..index], cart[index], cart[index + 1..]);
  }

  lemma RemovedAtInside(cart: seq<CartItem>, index: int)
    requires 0 <= index < |cart|
    ensures RemovedAt(cart, index) == cart[..index] + cart[index + 1..]
    ensures cart == cart[..index] + ([cart[index]] + cart[index + 1..])
  {
    assert SpliceStart(|cart|, index) == index;
  }

  lemma DropTotals(a: seq<CartItem>, e: CartItem, b: seq<CartItem>)
    ensures Total(a + b) == Total(a + ([e] + b)) - Amount(e)
    ensures TotalQuantity(a + b) == TotalQuantity(a + ([e] + b)) - e.quantity
  {
    TotalsConcat(a, [e] + b);
    TotalsConcat(a, b);
    assert ([e] + b)[1..] == b;
  }

  // ------------------------------------------------------------ totals

  lemma {:induction false} TotalsConcat(a: seq<CartItem>, b: seq<CartItem>)
    ensures Total(a + b) == Total(a) + Total(b)
    ensures TotalQuantity(a + b) == TotalQuantity(a) + TotalQuantity(b)
  {
    if a == [] {
      assert a + b == b;
    } else {
      TailOfConcat(a, b);
      TotalsConcat(a[1..], b);
    }
  }

  lemma UpdateTotals(cart: seq<CartItem>, k: int, e: CartItem)
    requires 0 <= k < |cart|
    ensures Total(cart[k := e]) == Total(cart) - Amount(cart[k]) + Amount(e)
    ensures TotalQuantity(cart[k := e]) == TotalQuantity(cart) - cart[k].quantity + e.quantity
  {
    var a := cart[..k];
    var b := cart[k + 1..];
    assert cart == a + ([cart[k]] + b);
    assert cart[k := e] == a + ([e] + b);
    TotalsConcat(a, [cart[k]] + b);
    TotalsConcat(a, [e] + b);
    assert ([cart[k]] + b)[1..] == b && ([e] + b)[1..] == b;
  }
}
