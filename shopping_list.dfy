/**
 * The shopping-list page's state and handlers. Each handler's awaited `api`
 * call is an outcome passed in (the value the call resolved to, or a failure),
 * and each handler returns the calls it made. A price input field is modelled
 * by what `parseFloat` reads from it: `None` for NaN, which includes the empty
 * field.
 */
module ShoppingList {
  import opened Wrappers

  /** An entry of `items` as the server sends it and the page keeps it. */
  datatype Item = Item(id: int, name: string, price: real, purchased: bool)

  /** The requests the page sends through `api`. */
  datatype Call =
    | AddShoppingItem(name: string, price: real)
    | UpdateShoppingItem(id: int, purchased: bool)
    | AddExpense(title: string, amount: real, category: string, date: string)
    | DeleteShoppingItem(id: int)

  /** The page's React state. */
  datatype View = View(
    items: seq<Item>,
    newItem: string,
    newPrice: Option<real>,
    modalOpen: bool,
    selectedItem: Option<Item>,
    purchasePrice: Option<real>,
    purchaseDate: string)

  /** `parseFloat(field) || fallback`: NaN and zero are both falsy. */
  function OrElse(parsed: Option<real>, fallback: real): (v: real)
    ensures parsed.Some? && parsed.value != 0.0 ==> v == parsed.value
    ensures parsed.None? || parsed.value == 0.0 ==> v == fallback
  {
    match parsed
    case Some(p) => if p != 0.0 then p else fallback
    case None => fallback
  }

  predicate NonNegativePrices(items: seq<Item>) {
    forall k :: 0 <= k < |items| ==> items[k].price >= 0.0
  }

  /** `items.reduce((sum, item) => sum + item.price, 0)`, folded from the left. */
  function Total(items: seq<Item>): (t: real)
    ensures |items| == 0 ==> t == 0.0
    ensures NonNegativePrices(items) ==> t >= 0.0
  {
    if |items| == 0 then 0.0
    else
      assert NonNegativePrices(items) ==> NonNegativePrices(items[..|items| - 1]);
      Total(items[..|items| - 1]) + items[|items| - 1].price
  }

  /** `items.filter(i => i.purchased)` */
  function Purchased(items: seq<Item>): (r: seq<Item>)
    ensures forall x :: x in r <==> x in items && x.purchased
  {
    if |items| == 0 then []
    else
      var last := items[|items| - 1];
      var init := items[..|items| - 1];
      assert items == init + [last];
      Purchased(init) + (if last.purchased then [last] else [])
  }

  /** The amount already spent: the total over the purchased items, never above the whole list's total. */
  function PurchasedTotal(items: seq<Item>): (r: real)
    ensures NonNegativePrices(items) ==> 0.0 <= r <= Total(items)
  {
    PurchasedTotalAtMostTotal(items);
    Total(Purchased(items))
  }

  /** `items.find(i => i.id === id)`: the first item with that id. */
  function Find(items: seq<Item>, id: int): (r: Option<Item>)
    ensures r.None? <==> forall k :: 0 <= k < |items| ==> items[k].id != id
    ensures r.Some? ==> exists k :: 0 <= k < |items| && items[k] == r.value && r.value.id == id
                          && forall j :: 0 <= j < k ==> items[j].id != id
  {
    if |items| == 0 then None
    else if items[0].id == id then Some(items[0])
    else
      var r := Find(items[1..], id);
      assert forall k :: 1 <= k < |items| ==> items[k] == items[1..][k - 1];
      r
  }

  /** `items.map(i => i.id === id ? { ...i, purchased: false } : i)` */
  function Unmarked(items: seq<Item>, id: int): (r: seq<Item>)
    ensures |r| == |items|
    ensures forall k :: 0 <= k < |items| ==>
      r[k] == if items[k].id == id then items[k].(purchased := false) else items[k]
  {
    if |items| == 0 then []
    else [if items[0].id == id then items[0].(purchased := false) else items[0]] + Unmarked(items[1..], id)
  }

  /** `items.map(i => i.id === id ? { ...i, purchased: true, price: parseFloat(purchasePrice) || i.price } : i)` */
  function MarkedPurchased(items: seq<Item>, id: int, purchasePrice: Option<real>): (r: seq<Item>)
    ensures |r| == |items|
    ensures forall k :: 0 <= k < |items| ==>
      r[k] == if items[k].id == id then items[k].(purchased := true, price := OrElse(purchasePrice, items[k].price))
              else items[k]
  {
    if |items| == 0 then []
    else
      var head := items[0];
      [if head.id == id then head.(purchased := true, price := OrElse(purchasePrice, head.price)) else head]
        + MarkedPurchased(items[1..], id, purchasePrice)
  }

  /** `items.filter(item => item.id !== id)` */
  function Without(items: seq<Item>, id: int): (r: seq<Item>)
    ensures forall x :: x in r <==> x in items && x.id != id
    ensures |r| <= |items|
  {
    if |items| == 0 then []
    else
      assert forall x :: x in items <==> x == items[0] || x in items[1..];
      (if items[0].id == id then [] else [items[0]]) + Without(items[1..], id)
  }

  // ------------------------------------------------------------------ lemmas

  lemma {:induction false} TotalAppend(a: seq<Item>, b: seq<Item>)
    ensures Total(a + b) == Total(a) + Total(b)
  {
    if |b| > 0 {
      var ab := a + b;
      assert ab[..|ab| - 1] == a + b[..|b| - 1];
      TotalAppend(a, b[..|b| - 1]);
    } else {
      assert a + b == a;
    }
  }

  /** Adding an item in front raises the estimated total by its price. */
  lemma TotalPrepend(x: Item, items: seq<Item>)
    ensures Total([x] + items) == x.price + Total(items)
  {
    TotalAppend([x], items);
    assert [x][..0] == [];
  }

  lemma {:induction false} PurchasedAppend(a: seq<Item>, b: seq<Item>)
    ensures Purchased(a + b) == Purchased(a) + Purchased(b)
  {
    if |b| > 0 {
      var ab := a + b;
      assert ab[..|ab| - 1] == a + b[..|b| - 1];
      assert ab[|ab| - 1] == b[|b| - 1];
      PurchasedAppend(a, b[..|b| - 1]);
    } else {
      assert a + b == a;
    }
  }

  /** With non-negative prices, what is already spent never exceeds the estimate. */
  lemma {:induction false} PurchasedTotalAtMostTotal(items: seq<Item>)
    ensures NonNegativePrices(items) ==> 0.0 <= Total(Purchased(items)) <= Total(items)
  {
    if |items| > 0 && NonNegativePrices(items) {
      var init, last := items[..|items| - 1], items[|items| - 1];
      assert items == init + [last];
      PurchasedTotalAtMostTotal(init);
      PurchasedAppend(init, [last]);
      assert [last][..0] == [];
      TotalAppend(Purchased(init), Purchased([last]));
    }
  }

  /** Un-marking keeps every price, so the estimate stays and the amount spent does not grow. */
  lemma {:induction false} UnmarkedTotals(items: seq<Item>, id: int)
    requires NonNegativePrices(items)
    ensures Total(Unmarked(items, id)) == Total(items)
    ensures PurchasedTotal(Unmarked(items, id)) <= PurchasedTotal(items)
  {
    if |items| > 0 {
      var head := items[0];
      var h := if head.id == id then head.(purchased := false) else head;
      assert items == [head] + items[1..];
      assert Unmarked(items, id) == [h] + Unmarked(items[1..], id);
      UnmarkedTotals(items[1..], id);
      TotalPrepend(head, items[1..]);
      TotalPrepend(h, Unmarked(items[1..], id));
      PurchasedAppend([h], Unmarked(items[1..], id));
      PurchasedAppend([head], items[1..]);
      assert [h][..0] == [] && [head][..0] == [];
      TotalAppend(Purchased([h]), Purchased(Unmarked(items[1..], id)));
      TotalAppend(Purchased([head]), Purchased(items[1..]));
    }
  }

  /** Removing by id works piecewise, so the surviving items keep their order. */
  lemma {:induction false} WithoutAppend(a: seq<Item>, b: seq<Item>, id: int)
    ensures Without(a + b, id) == Without(a, id) + Without(b, id)
  {
    if |a| > 0 {
      assert (a + b)[1..] == a[1..] + b;
      WithoutAppend(a[1..], b, id);
    } else {
      assert a + b == b;
    }
  }

  /** Removing an id twice is removing it once. */
  lemma {:induction false} WithoutIdempotent(items: seq<Item>, id: int)
    ensures Without(Without(items, id), id) == Without(items, id)
  {
    if |items| > 0 {
      WithoutIdempotent(items[1..], id);
      if items[0].id != id {
        assert Without(items, id) == [items[0]] + Without(items[1..], id);
        WithoutAppend([items[0]], Without(items[1..], id), id);
        assert [items[0]][1..] == [];
      } else {
        assert Without(items, id) == Without(items[1..], id);
      }
    }
  }

  // -------------------------------------------------------------- the page

  class ShoppingListPage {
    var items: seq<Item>
    var newItem: string
    var newPrice: Option<real>
    var modalOpen: bool
    var selectedItem: Option<Item>
    var purchasePrice: Option<real>
    var purchaseDate: string

    function State(): View
      reads this
    {
      View(items, newItem, newPrice, modalOpen, selectedItem, purchasePrice, purchaseDate)
    }

    /** The initial `useState` values; `today` is `new Date().toISOString().split('T')[0]`. */
    constructor (today: string)
      ensures State() == View([], "", None, false, None, None, today)
    {
      items, newItem, newPrice := [], "", None;
      modalOpen, selectedItem, purchasePrice, purchaseDate := false, None, None, today;
    }

    /** `loadItems`: the fetched list replaces `items`; a failed fetch changes nothing. */
    method LoadItems(fetched: Option<seq<Item>>)
      modifies this
      ensures State() == if fetched.Some? then old(State()).(items := fetched.value) else old(State())
    {
      if fetched.Some? {
        items := fetched.value;
      }
    }

    /** `addItem`: `saved` is what `api.addShoppingItem` resolved to, `None` if it threw. */
    method AddItem(saved: Option<Item>) returns (sent: Option<Call>)
      modifies this
      ensures old(newItem) == "" ==> sent == None && State() == old(State())
      ensures old(newItem) != "" ==> sent == Some(AddShoppingItem(old(newItem), OrElse(old(newPrice), 0.0)))
      ensures old(newItem) != "" && saved.Some? ==>
        State() == old(State()).(items := [saved.value] + old(items), newItem := "", newPrice := None)
      ensures old(newItem) != "" && saved.None? ==> State() == old(State())
    {
      if newItem == "" {
        return None;
      }
      sent := Some(AddShoppingItem(newItem, OrElse(newPrice, 0.0)));
      if saved.Some? {
        items := [saved.value] + items;
        newItem := "";
        newPrice := None;
      }
    }

    /**
     * `toggleItem`: an unpurchased item opens the purchase dialog; a purchased
     * one is un-marked once `api.updateShoppingItem` succeeds (`unmarked`).
     * An id not in the list makes `item.purchased` throw before anything happens.
     */
    method ToggleItem(id: int, today: string, unmarked: bool) returns (sent: Option<Call>)
      modifies this
      ensures Find(old(items), id).None? ==> sent == None && State() == old(State())
      ensures Find(old(items), id).Some? && !Find(old(items), id).value.purchased ==>
        && sent == None
        && State() == old(State()).(selectedItem := Find(old(items), id), purchasePrice := Some(Find(old(items), id).value.price),
                                    purchaseDate := today, modalOpen := true)
      ensures Find(old(items), id).Some? && Find(old(items), id).value.purchased ==>
        && sent == Some(UpdateShoppingItem(id, false))
        && State() == if unmarked then old(State()).(items := Unmarked(old(items), id)) else old(State())
    {
      var found := Find(items, id);
      if found.None? {
        return None;
      }
      var item := found.value;
      if !item.purchased {
        selectedItem := found;
        purchasePrice := Some(item.price);
        purchaseDate := today;
        modalOpen := true;
        return None;
      }
      sent := Some(UpdateShoppingItem(id, false));
      if unmarked {
        items := Unmarked(items, id);
      }
    }

    /**
     * `handlePurchaseConfirm`: mark the item purchased on the server, then
     * record it as a Shopping expense; the page changes only when both calls
     * succeed (`marked`, `recorded`).
     */
    method ConfirmPurchase(marked: bool, recorded: bool) returns (sent: seq<Call>)
      modifies this
      ensures old(selectedItem).None? ==> sent == [] && State() == old(State())
      ensures old(selectedItem).Some? ==>
        sent == [UpdateShoppingItem(old(selectedItem).value.id, true)]
                + if marked then [AddExpense(old(selectedItem).value.name, OrElse(old(purchasePrice), 0.0),
                                             "Shopping", old(purchaseDate))]
                  else []
      ensures old(selectedItem).Some? && marked && recorded ==>
        State() == old(State()).(items := MarkedPurchased(old(items), old(selectedItem).value.id, old(purchasePrice)),
                                 modalOpen := false, selectedItem := None)
      ensures old(selectedItem).Some? && !(marked && recorded) ==> State() == old(State())
    {
      if selectedItem.None? {
        return [];
      }
      var item := selectedItem.value;
      sent := [UpdateShoppingItem(item.id, true)];
      if !marked {
        return;
      }
      sent := sent + [AddExpense(item.name, OrElse(purchasePrice, 0.0), "Shopping", purchaseDate)];
      if !recorded {
        return;
      }
      items := MarkedPurchased(items, item.id, purchasePrice);
      modalOpen := false;
      selectedItem := None;
    }

    /** The dialog's Cancel button and `onClose`: only the dialog closes; the selection stays. */
    method CancelPurchase()
      modifies this
      ensures State() == old(State()).(modalOpen := false)
    {
      modalOpen := false;
    }

    /** `deleteItem`: once `api.deleteShoppingItem` succeeds (`deleted`), every item with that id leaves the list. */
    method DeleteItem(id: int, deleted: bool) returns (sent: Call)
      modifies this
      ensures sent == DeleteShoppingItem(id)
      ensures State() == if deleted then old(State()).(items := Without(old(items), id)) else old(State())
    {
      sent := DeleteShoppingItem(id);
      if deleted {
        items := Without(items, id);
      }
    }
  }
}
