/** The cart page's use of the store: a requested quantity of zero or less becomes
    a removal, the minus and plus buttons request `quantity - 1` and `quantity + 1`,
    and the cross button always removes. Along these paths every stored quantity
    stays at least 1, although the store itself would accept any quantity. */
module CartPage {
  import opened Cart

  /** What the pages can ask of the store: a product card's "add to cart",
      the page's `updateQuantity(id, n)` and its `removeItem(id)`. */
  datatype PageEvent =
    | Add(product: Product)
    | SetQuantity(id: string, newQuantity: int)
    | Remove(id: string)

  /** The command each page event dispatches. */
  function Command(e: PageEvent): (r: CartAction)
    ensures !r.ClearCart?
    ensures r.UpdateQuantity? ==> r.quantity >= 1
    ensures e.Add? <==> r.AddItem?
    ensures e.SetQuantity? ==> r.id == e.id && (r.RemoveItem? <==> e.newQuantity <= 0)
    ensures e.Remove? ==> r == RemoveItem(e.id)
  {
    match e
    case Add(p) => AddItem(p)
    case SetQuantity(id, n) => if n <= 0 then RemoveItem(id) else UpdateQuantity(id, n)
    case Remove(id) => RemoveItem(id)
  }

  /** The state after a sequence of page events. */
  function RunEvents(s: CartState, events: seq<PageEvent>): CartState
    decreases |events|
  {
    if events == [] then s else RunEvents(Reduce(s, Command(events[0])), events[1..])
  }

  predicate AllPositive(items: seq<CartItem>) {
    forall x :: x in items ==> x.quantity >= 1
  }

  /** The empty-cart view is shown exactly when `items` is empty. */
  predicate ShowsEmptyCart(s: CartState) {
    |s.items| == 0
  }

  /** `updateQuantity(id, n)` with `n <= 0` removes the line; with `n > 0` it stores `n`. */
  lemma QuantityPolicy(s: CartState, id: string, n: int)
    ensures n <= 0 ==> !HasId(Reduce(s, Command(SetQuantity(id, n))).items, id)
    ensures n <= 0 ==> Reduce(s, Command(SetQuantity(id, n))) == Reduce(s, RemoveItem(id))
    ensures n > 0 ==> Reduce(s, Command(SetQuantity(id, n))) == Reduce(s, UpdateQuantity(id, n))
  {
  }

  /** Every page event keeps all stored quantities at least 1. */
  lemma CommandKeepsPositive(s: CartState, e: PageEvent)
    requires AllPositive(s.items)
    ensures AllPositive(Reduce(s, Command(e)).items)
  {
    var r := Reduce(s, Command(e)).items;
    match e
    case Add(p) =>
      if HasId(s.items, p.id) {
        forall x | x in r ensures x.quantity >= 1 {
          var i :| 0 <= i < |r| && r[i] == x;
          assert s.items[i] in s.items;
        }
      }
    case SetQuantity(id, n) =>
      if n > 0 {
        forall x | x in r ensures x.quantity >= 1 {
          var i :| 0 <= i < |r| && r[i] == x;
          assert s.items[i] in s.items;
        }
      }
    case Remove(id) =>
  }

  /** A line item's units are at least its number of lines when all quantities are positive. */
  lemma {:induction false} CountAtLeastLines(items: seq<CartItem>)
    requires AllPositive(items)
    ensures SumCount(items) >= |items|
    decreases |items|
  {
    if items != [] {
      var init := items[..|items| - 1];
      assert AllPositive(init) by {
        forall x | x in init ensures x.quantity >= 1 {
          var i :| 0 <= i < |init| && init[i] == x;
          assert items[i] in items;
        }
      }
      CountAtLeastLines(init);
      assert items[|items| - 1] in items;
    }
  }

  /** Along the page's paths, the empty-cart branch coincides with an item count of zero. */
  lemma EmptyViewIffNoUnits(s: CartState)
    requires Consistent(s) && AllPositive(s.items)
    ensures ShowsEmptyCart(s) <==> s.itemCount == 0
  {
    CountAtLeastLines(s.items);
  }

  /** Starting from the empty cart, page events keep ids unique, aggregates exact
      and every quantity at least 1. */
  lemma {:induction false} RunEventsKeepsInvariants(s: CartState, events: seq<PageEvent>)
    requires UniqueIds(s.items) && Consistent(s) && AllPositive(s.items)
    ensures var r := RunEvents(s, events);
      UniqueIds(r.items) && Consistent(r) && AllPositive(r.items)
    decreases |events|
  {
    if events != [] {
      ReducePreservesUnique(s, Command(events[0]));
      CommandKeepsPositive(s, events[0]);
      RunEventsKeepsInvariants(Reduce(s, Command(events[0])), events[1..]);
    }
  }

  lemma ReachableThroughPage(events: seq<PageEvent>)
    ensures var r := RunEvents(InitialState, events);
      UniqueIds(r.items) && Consistent(r) && AllPositive(r.items)
  {
    RunEventsKeepsInvariants(InitialState, events);
  }

  /** The minus button on an item of quantity 1 or less removes that item and nothing else. */
  lemma DecrementRemoves(s: CartState, k: int)
    requires UniqueIds(s.items) && 0 <= k < |s.items| && s.items[k].quantity <= 1
    ensures var item := s.items[k];
      Reduce(s, Command(SetQuantity(item.product.id, item.quantity - 1))).items
        == s.items[..k] + s.items[k + 1..]
  {
    RemovePresent(s, s.items[k].product.id, k);
  }

  /** The minus button on an item of quantity above 1 lowers it by one. */
  lemma DecrementAboveOne(s: CartState, k: int)
    requires UniqueIds(s.items) && 0 <= k < |s.items| && s.items[k].quantity > 1
    ensures var item := s.items[k];
      Reduce(s, Command(SetQuantity(item.product.id, item.quantity - 1))).items
        == s.items[k := CartItem(item.product, item.quantity - 1)]
  {
    UpdatePresent(s, s.items[k].product.id, s.items[k].quantity - 1, k);
  }

  /** The plus button on a stored item raises its quantity by one. */
  lemma IncrementRaisesByOne(s: CartState, k: int)
    requires UniqueIds(s.items) && AllPositive(s.items) && 0 <= k < |s.items|
    ensures var item := s.items[k];
      && Command(SetQuantity(item.product.id, item.quantity + 1)).UpdateQuantity?
      && Reduce(s, Command(SetQuantity(item.product.id, item.quantity + 1))).items
           == s.items[k := CartItem(item.product, item.quantity + 1)]
  {
    assert s.items[k] in s.items;
    UpdatePresent(s, s.items[k].product.id, s.items[k].quantity + 1, k);
  }

  /** `updateQuantity(id, newQuantity)` on the shared store. */
  method ChangeQuantity(store: CartStore, id: string, newQuantity: int)
    requires store.Valid()
    modifies store
    ensures store.Valid()
    ensures newQuantity <= 0 ==> store.state == Reduce(old(store.state), RemoveItem(id))
    ensures newQuantity > 0 ==> store.state == Reduce(old(store.state), UpdateQuantity(id, newQuantity))
    ensures AllPositive(old(store.state.items)) ==> AllPositive(store.state.items)
  {
    ghost var before := store.state;
    if newQuantity <= 0 {
      store.Dispatch(RemoveItem(id));
    } else {
      store.Dispatch(UpdateQuantity(id, newQuantity));
    }
    if AllPositive(before.items) {
      CommandKeepsPositive(before, SetQuantity(id, newQuantity));
    }
  }

  /** `removeItem(id)`: removes the line whatever its quantity. */
  method RemoveLine(store: CartStore, id: string)
    requires store.Valid()
    modifies store
    ensures store.Valid()
    ensures store.state == Reduce(old(store.state), RemoveItem(id))
    ensures !HasId(store.state.items, id)
    ensures AllPositive(old(store.state.items)) ==> AllPositive(store.state.items)
  {
    ghost var before := store.state;
    store.Dispatch(RemoveItem(id));
    if AllPositive(before.items) {
      CommandKeepsPositive(before, Remove(id));
    }
  }

  /** The minus button of the `k`-th rendered line: `updateQuantity(item.id, item.quantity - 1)`. */
  method Decrement(store: CartStore, k: int)
    requires store.Valid() && 0 <= k < |store.state.items|
    modifies store
    ensures store.Valid()
    ensures old(store.state.items[k].quantity) <= 1 ==>
      store.state.items == old(store.state.items[..k] + store.state.items[k + 1..])
    ensures old(store.state.items[k].quantity) > 1 ==>
      store.state.items == old(store.state.items[k := CartItem(store.state.items[k].product,
                                                               store.state.items[k].quantity - 1)])
    ensures AllPositive(old(store.state.items)) ==> AllPositive(store.state.items)
  {
    ghost var before := store.state;
    var item := store.state.items[k];
    ChangeQuantity(store, item.product.id, item.quantity - 1);
    if item.quantity <= 1 {
      DecrementRemoves(before, k);
    } else {
      DecrementAboveOne(before, k);
    }
  }

  /** The plus button of the `k`-th rendered line: `updateQuantity(item.id, item.quantity + 1)`. */
  method Increment(store: CartStore, k: int)
    requires store.Valid() && AllPositive(store.state.items) && 0 <= k < |store.state.items|
    modifies store
    ensures store.Valid() && AllPositive(store.state.items)
    ensures store.state.items == old(store.state.items[k := CartItem(store.state.items[k].product,
                                                                     store.state.items[k].quantity + 1)])
  {
    ghost var before := store.state;
    var item := store.state.items[k];
    ChangeQuantity(store, item.product.id, item.quantity + 1);
    IncrementRaisesByOne(before, k);
  }
}
