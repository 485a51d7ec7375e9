/** The item-list editing of src/components/transactions/TransactionItemForm.tsx.
    Each handler builds a new list and hands it to `setItems`, so each is a
    function from the current list to the next one. The on-screen totals are
    three reductions of their own, stated equal to
    `calculateTransactionTotals`. */
module TransactionItemForm {
  import opened Types
  import opened Utils

  /** The blank line `addItem` appends; `freshId` stands for
      `Date.now().toString()`. */
  function BlankItem(freshId: string): TransactionItem {
    TransactionItem(freshId, "", 0, 1, 0)
  }

  /** `setItems([...items, newItem])`. */
  function AddItem(items: seq<TransactionItem>, freshId: string): (r: seq<TransactionItem>)
    ensures |r| == |items| + 1 && r[..|items|] == items
    ensures r[|items|].id == freshId && r[|items|].name == "" && r[|items|].price == 0
    ensures r[|items|].quantity == 1 && r[|items|].costPrice == 0
  {
    items + [BlankItem(freshId)]
  }

  /** `items.filter(item => item.id !== id)`. */
  function RemoveItem(items: seq<TransactionItem>, id: string): (r: seq<TransactionItem>)
    ensures |r| <= |items|
  {
    if items == [] then []
    else
      var last := items[|items| - 1];
      RemoveItem(items[..|items| - 1], id) + (if last.id != id then [last] else [])
  }

  /** Removal keeps exactly the items with another id. */
  lemma {:induction false} RemoveItemMembers(items: seq<TransactionItem>, id: string)
    ensures forall item :: item in RemoveItem(items, id) <==> item in items && item.id != id
    decreases |items|
  {
    if items != [] {
      var init, last := items[..|items| - 1], items[|items| - 1];
      RemoveItemMembers(init, id);
      assert items == init + [last];
    }
  }

  /** Removing an id no item has changes nothing. */
  lemma {:induction false} RemoveMissingItem(items: seq<TransactionItem>, id: string)
    requires forall i :: 0 <= i < |items| ==> items[i].id != id
    ensures RemoveItem(items, id) == items
    decreases |items|
  {
    if items != [] {
      var init, last := items[..|items| - 1], items[|items| - 1];
      RemoveMissingItem(init, id);
      assert RemoveItem(items, id) == init + [last];
      assert init + [last] == items;
    }
  }

  /** Removal distributes over concatenation, so the remaining lines keep
      their order and their number. */
  lemma {:induction false} RemoveItemOfConcat(a: seq<TransactionItem>, b: seq<TransactionItem>, id: string)
    ensures RemoveItem(a + b, id) == RemoveItem(a, id) + RemoveItem(b, id)
    decreases |b|
  {
    if b == [] {
      assert a + b == a;
    } else {
      var init, last := b[..|b| - 1], b[|b| - 1];
      RemoveItemOfConcat(a, init, id);
      assert (a + b)[..|a + b| - 1] == a + init;
      assert (a + b)[|a + b| - 1] == last;
      var tail := if last.id != id then [last] else [];
      assert RemoveItem(a + b, id) == RemoveItem(a + init, id) + tail;
      assert RemoveItem(b, id) == RemoveItem(init, id) + tail;
    }
  }

  /** A single line survives exactly when its id differs. */
  lemma RemoveItemOfOne(item: TransactionItem, id: string)
    ensures RemoveItem([item], id) == if item.id != id then [item] else []
  {
    assert [item][..0] == [];
  }

  /** Removing the line just added, under an id no other line has, gives the
      list back. */
  lemma RemoveAfterAdd(items: seq<TransactionItem>, freshId: string)
    requires forall i :: 0 <= i < |items| ==> items[i].id != freshId
    ensures RemoveItem(AddItem(items, freshId), freshId) == items
  {
    var added := AddItem(items, freshId);
    assert added[..|added| - 1] == items;
    RemoveMissingItem(items, freshId);
  }

  /** A blank line adds nothing to the totals. */
  lemma AddItemKeepsTotals(items: seq<TransactionItem>, freshId: string)
    ensures CalculateTransactionTotals(AddItem(items, freshId)) == CalculateTransactionTotals(items)
  {
    TotalsOfConcat(items, [BlankItem(freshId)]);
    TotalsOfOneItem(BlankItem(freshId));
  }

  /** The edits the form's inputs make: `updateItem(id, field, value)` with an
      already-parsed value of the field's type. */
  datatype ItemEdit =
    | SetName(name: string)
    | SetPrice(price: int)
    | SetQuantity(quantity: int)
    | SetCostPrice(costPrice: int)

  /** `{ ...item, [field]: value }`. */
  function EditItem(item: TransactionItem, e: ItemEdit): TransactionItem {
    match e
    case SetName(v) => item.(name := v)
    case SetPrice(v) => item.(price := v)
    case SetQuantity(v) => item.(quantity := v)
    case SetCostPrice(v) => item.(costPrice := v)
  }

  /** `items.map(item => item.id === id ? { ...item, [field]: value } : item)`. */
  function UpdateItem(items: seq<TransactionItem>, id: string, e: ItemEdit): (r: seq<TransactionItem>)
    ensures |r| == |items|
    ensures forall i :: 0 <= i < |items| ==> r[i] == if items[i].id == id then EditItem(items[i], e) else items[i]
  {
    if items == [] then []
    else [if items[0].id == id then EditItem(items[0], e) else items[0]] + UpdateItem(items[1..], id, e)
  }

  /** An edit sets exactly the edited field of the matching lines: their id and
      every other field stay, and the other lines are untouched. */
  lemma UpdateItemSetsOneField(items: seq<TransactionItem>, id: string, e: ItemEdit, i: nat)
    requires i < |items|
    ensures var r := UpdateItem(items, id, e)[i];
            && r.id == items[i].id
            && (items[i].id != id ==> r == items[i])
            && (items[i].id == id ==>
                  && r.name == (if e.SetName? then e.name else items[i].name)
                  && r.price == (if e.SetPrice? then e.price else items[i].price)
                  && r.quantity == (if e.SetQuantity? then e.quantity else items[i].quantity)
                  && r.costPrice == (if e.SetCostPrice? then e.costPrice else items[i].costPrice))
  {
  }

  /** Editing a line and then removing it is the same as removing it. */
  lemma {:induction false} RemoveAfterUpdate(items: seq<TransactionItem>, id: string, e: ItemEdit)
    ensures RemoveItem(UpdateItem(items, id, e), id) == RemoveItem(items, id)
    decreases |items|
  {
    if items != [] {
      var init, last := items[..|items| - 1], items[|items| - 1];
      var u := UpdateItem(items, id, e);
      assert u[..|u| - 1] == UpdateItem(init, id, e);
      RemoveAfterUpdate(init, id, e);
    }
  }

  /** `calculateSubtotal(item)`. */
  function CalculateSubtotal(item: TransactionItem): int {
    item.price * item.quantity
  }

  /** `items.reduce((sum, item) => sum + calculateSubtotal(item), 0)`, shown as
      "Total". */
  function DisplayedTotal(items: seq<TransactionItem>): int {
    if items == [] then 0 else DisplayedTotal(items[..|items| - 1]) + CalculateSubtotal(items[|items| - 1])
  }

  /** `items.reduce((sum, item) => sum + item.costPrice * item.quantity, 0)`,
      shown as "Total Modal". */
  function DisplayedCost(items: seq<TransactionItem>): int {
    if items == [] then 0 else DisplayedCost(items[..|items| - 1]) + items[|items| - 1].costPrice * items[|items| - 1].quantity
  }

  /** The "Keuntungan" line: the two reductions above, subtracted. */
  function DisplayedProfit(items: seq<TransactionItem>): int {
    DisplayedTotal(items) - DisplayedCost(items)
  }

  /** The form shows the totals the store will record for the same items. */
  lemma {:induction false} DisplayedTotalsMatchStore(items: seq<TransactionItem>)
    ensures DisplayedTotal(items) == CalculateTransactionTotals(items).totalAmount
    ensures DisplayedCost(items) == CalculateTransactionTotals(items).totalCostPrice
    ensures DisplayedProfit(items) == CalculateTransactionTotals(items).profit
    decreases |items|
  {
    if items != [] {
      DisplayedTotalsMatchStore(items[..|items| - 1]);
    }
  }
}
