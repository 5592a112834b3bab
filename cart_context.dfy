/** The shopping-cart store: line items unique by product id, kept in insertion
    order, with `total` and `itemCount` recomputed from scratch by every command. */
module Cart {
  import opened Lists

  /** A catalogue entry. Prices are whole numbers in the catalogue. */
  datatype Product = Product(
    id: string, name: string, price: int, image: string,
    brand: string, color: string, size: string, model: string)

  /** A product plus a quantity. The store never clamps the quantity, so it is an `int`. */
  datatype CartItem = CartItem(product: Product, quantity: int)

  datatype CartState = CartState(items: seq<CartItem>, total: int, itemCount: int)

  /** The closed set of commands the store accepts. */
  datatype CartAction =
    | AddItem(product: Product)
    | RemoveItem(id: string)
    | UpdateQuantity(id: string, quantity: int)
    | ClearCart

  const InitialState := CartState([], 0, 0)

  function LineTotal(item: CartItem): int {
    item.product.price * item.quantity
  }

  /** `items.reduce((sum, item) => sum + item.price * item.quantity, 0)`, folded left to right. */
  function SumTotal(items: seq<CartItem>): int {
    if items == [] then 0
    else SumTotal(items[..|items| - 1]) + LineTotal(items[|items| - 1])
  }

  /** `items.reduce((sum, item) => sum + item.quantity, 0)`. */
  function SumCount(items: seq<CartItem>): (r: int)
    ensures (forall i :: 0 <= i < |items| ==> items[i].quantity >= 0) ==> r >= 0
  {
    if items == [] then 0
    else SumCount(items[..|items| - 1]) + items[|items| - 1].quantity
  }

  /** The derived-aggregate invariant. */
  predicate Consistent(s: CartState) {
    s.total == SumTotal(s.items) && s.itemCount == SumCount(s.items)
  }

  /** No two line items share a product id. */
  predicate UniqueIds(items: seq<CartItem>) {
    forall i, j :: 0 <= i < j < |items| ==> items[i].product.id != items[j].product.id
  }

  /** `items.find(item => item.id === id)` finds something. */
  predicate HasId(items: seq<CartItem>, id: string) {
    exists i :: 0 <= i < |items| && items[i].product.id == id
  }

  /** The predicate of `items.filter(item => item.id !== id)`. */
  function NotId(id: string): CartItem -> bool {
    (item: CartItem) => item.product.id != id
  }

  /** `items.map(item => item.id === id ? { ...item, quantity: f(item.quantity) } : item)`. */
  function MapQuantity(items: seq<CartItem>, id: string, f: int -> int): seq<CartItem> {
    seq(|items|, i requires 0 <= i < |items| =>
      if items[i].product.id == id then items[i].(quantity := f(items[i].quantity)) else items[i])
  }

  /** A state whose aggregates are recomputed in full from `items`. */
  function WithTotals(items: seq<CartItem>): (r: CartState)
    ensures r.items == items && Consistent(r)
  {
    CartState(items, SumTotal(items), SumCount(items))
  }

  /** `cartReducer`: the next state for a command. */
  function Reduce(state: CartState, action: CartAction): (r: CartState)
    ensures Consistent(r)
    ensures action.ClearCart? ==> r.items == []
    ensures action.RemoveItem? ==> !HasId(r.items, action.id)
  {
    match action
    case AddItem(p) =>
      if HasId(state.items, p.id) then WithTotals(MapQuantity(state.items, p.id, q => q + 1))
      else WithTotals(state.items + [CartItem(p, 1)])
    case RemoveItem(id) =>
      var kept := Filter(state.items, NotId(id));
      assert forall i :: 0 <= i < |kept| ==> kept[i] in kept;
      WithTotals(kept)
    case UpdateQuantity(id, q) => WithTotals(MapQuantity(state.items, id, _ => q))
    case ClearCart => CartState([], 0, 0)
  }

  /** The state after a sequence of commands, applied in order. */
  function Run(state: CartState, actions: seq<CartAction>): CartState
    decreases |actions|
  {
    if actions == [] then state else Run(Reduce(state, actions[0]), actions[1..])
  }

  // ---------------------------------------------------------------------------
  // Sums

  lemma {:induction false} SumAppend(a: seq<CartItem>, b: seq<CartItem>)
    ensures SumTotal(a + b) == SumTotal(a) + SumTotal(b)
    ensures SumCount(a + b) == SumCount(a) + SumCount(b)
    decreases |b|
  {
    if b == [] {
      assert a + b == a;
    } else {
      var b' := b[..|b| - 1];
      assert (a + b)[..|a + b| - 1] == a + b';
      SumAppend(a, b');
    }
  }

  lemma SumSingle(x: CartItem)
    ensures SumTotal([x]) == LineTotal(x) && SumCount([x]) == x.quantity
  {
    assert [x][..0] == [];
  }

  /** With no negative price or quantity, the running total never goes below zero. */
  lemma {:induction false} TotalNonNegative(items: seq<CartItem>)
    requires forall i :: 0 <= i < |items| ==> items[i].product.price >= 0 && items[i].quantity >= 0
    ensures SumTotal(items) >= 0
    decreases |items|
  {
    if items != [] {
      var init := items[..|items| - 1];
      assert forall i :: 0 <= i < |init| ==> init[i] == items[i];
      TotalNonNegative(init);
      var last := items[|items| - 1];
      assert LineTotal(last) >= 0 by {
        assert last.product.price >= 0 && last.quantity >= 0;
      }
    }
  }

  /** The sums split around position `k`. */
  lemma SumSplit(items: seq<CartItem>, k: int)
    requires 0 <= k < |items|
    ensures SumTotal(items) == SumTotal(items[..k]) + LineTotal(items[k]) + SumTotal(items[k + 1..])
    ensures SumCount(items) == SumCount(items[..k]) + items[k].quantity + SumCount(items[k + 1..])
  {
    var pre, x, post := items[..k], items[k], items[k + 1..];
    assert items == (pre + [x]) + post;
    SumAppend(pre + [x], post);
    SumAppend(pre, [x]);
    SumSingle(x);
  }

  /** Replacing one line item changes each sum by exactly that item's difference. */
  lemma SumReplace(items: seq<CartItem>, k: int, x: CartItem)
    requires 0 <= k < |items|
    ensures SumTotal(items[k := x]) == SumTotal(items) - LineTotal(items[k]) + LineTotal(x)
    ensures SumCount(items[k := x]) == SumCount(items) - items[k].quantity + x.quantity
  {
    var r := items[k := x];
    assert r[..k] == items[..k] && r[k + 1..] == items[k + 1..];
    SumSplit(items, k);
    SumSplit(r, k);
  }

  // ---------------------------------------------------------------------------
  // Structure of the two list transformations on a cart with unique ids

  /** On unique ids, the map touches exactly the one item with that id. */
  lemma MapQuantityAt(items: seq<CartItem>, id: string, f: int -> int, k: int)
    requires UniqueIds(items) && 0 <= k < |items| && items[k].product.id == id
    ensures MapQuantity(items, id, f) == items[k := items[k].(quantity := f(items[k].quantity))]
  {
  }

  /** A map for an absent id changes nothing. */
  lemma MapQuantityAbsent(items: seq<CartItem>, id: string, f: int -> int)
    requires !HasId(items, id)
    ensures MapQuantity(items, id, f) == items
  {
  }

  /** On unique ids, removing an id deletes exactly its one position. */
  lemma FilterAt(items: seq<CartItem>, id: string, k: int)
    requires UniqueIds(items) && 0 <= k < |items| && items[k].product.id == id
    ensures Filter(items, NotId(id)) == items[..k] + items[k + 1..]
  {
    var keep := NotId(id);
    var pre, post := items[..k], items[k + 1..];
    assert items == pre + ([items[k]] + post);
    forall i | 0 <= i < |pre| ensures keep(pre[i]) {
      assert pre[i] == items[i];
    }
    forall i | 0 <= i < |post| ensures keep(post[i]) {
      assert post[i] == items[k + 1 + i];
    }
    FilterKeepsAll(pre, keep);
    FilterKeepsAll(post, keep);
    assert Filter([items[k]], keep) == [];
    FilterAppend([items[k]], post, keep);
    FilterAppend(pre, [items[k]] + post, keep);
  }

  /** Every item left after removing `id` is an item that was there before. */
  lemma FilterUnique(items: seq<CartItem>, id: string)
    requires UniqueIds(items)
    ensures UniqueIds(Filter(items, NotId(id)))
  {
    if HasId(items, id) {
      var k :| 0 <= k < |items| && items[k].product.id == id;
      FilterAt(items, id, k);
    } else {
      FilterKeepsAll(items, NotId(id));
    }
  }

  // ---------------------------------------------------------------------------
  // ADD_ITEM

  /** Adding an id already in the cart raises that item's quantity by exactly one,
      keeps its stored attributes rather than the payload's, and touches nothing else. */
  lemma AddExisting(s: CartState, p: Product, k: int)
    requires UniqueIds(s.items) && 0 <= k < |s.items| && s.items[k].product.id == p.id
    ensures var r := Reduce(s, AddItem(p));
      && r.items == s.items[k := CartItem(s.items[k].product, s.items[k].quantity + 1)]
      && r.itemCount == SumCount(s.items) + 1
      && r.total == SumTotal(s.items) + s.items[k].product.price
  {
    var item := s.items[k];
    MapQuantityAt(s.items, p.id, q => q + 1, k);
    SumReplace(s.items, k, CartItem(item.product, item.quantity + 1));
    assert LineTotal(CartItem(item.product, item.quantity + 1)) == LineTotal(item) + item.product.price;
  }

  /** Adding an absent id appends one item with quantity 1 after all earlier items. */
  lemma AddNew(s: CartState, p: Product)
    requires !HasId(s.items, p.id)
    ensures var r := Reduce(s, AddItem(p));
      && r.items == s.items + [CartItem(p, 1)]
      && r.itemCount == SumCount(s.items) + 1
      && r.total == SumTotal(s.items) + p.price
  {
    SumAppend(s.items, [CartItem(p, 1)]);
    SumSingle(CartItem(p, 1));
  }

  /** Adding the same absent product twice yields one line item of quantity 2. */
  lemma AddTwiceAccumulates(s: CartState, p: Product)
    requires UniqueIds(s.items) && !HasId(s.items, p.id)
    ensures var r := Reduce(Reduce(s, AddItem(p)), AddItem(p));
      && r.items == s.items + [CartItem(p, 2)]
      && r.itemCount == SumCount(s.items) + 2
      && r.total == SumTotal(s.items) + 2 * p.price
  {
    var s1 := Reduce(s, AddItem(p));
    AddNew(s, p);
    ReducePreservesUnique(s, AddItem(p));
    AddExisting(s1, p, |s.items|);
  }

  // ---------------------------------------------------------------------------
  // REMOVE_ITEM

  /** Remove keeps exactly the items with another id, in their original order. */
  lemma RemoveKeepsOthers(s: CartState, id: string)
    ensures var r := Reduce(s, RemoveItem(id));
      && IsSubsequence(r.items, s.items)
      && (forall x :: x in r.items <==> x in s.items && x.product.id != id)
  {
    FilterIsSubsequence(s.items, NotId(id));
  }

  /** On unique ids, removing a present id deletes its one position and subtracts its line. */
  lemma RemovePresent(s: CartState, id: string, k: int)
    requires UniqueIds(s.items) && 0 <= k < |s.items| && s.items[k].product.id == id
    ensures var r := Reduce(s, RemoveItem(id));
      && r.items == s.items[..k] + s.items[k + 1..]
      && r.itemCount == SumCount(s.items) - s.items[k].quantity
      && r.total == SumTotal(s.items) - LineTotal(s.items[k])
  {
    FilterAt(s.items, id, k);
    SumSplit(s.items, k);
    SumAppend(s.items[..k], s.items[k + 1..]);
  }

  /** Removing an id that is not in the cart leaves the items unchanged. */
  lemma RemoveAbsent(s: CartState, id: string)
    requires !HasId(s.items, id)
    ensures Reduce(s, RemoveItem(id)).items == s.items
    ensures Consistent(s) ==> Reduce(s, RemoveItem(id)) == s
  {
    FilterKeepsAll(s.items, NotId(id));
  }

  /** Removing twice is removing once. */
  lemma RemoveIdempotent(s: CartState, id: string)
    ensures Reduce(Reduce(s, RemoveItem(id)), RemoveItem(id)) == Reduce(s, RemoveItem(id))
  {
    FilterIdempotent(s.items, NotId(id));
  }

  /** Adding a product that is not in the cart and removing it again restores the items,
      and the whole state when its aggregates were consistent. */
  lemma AddThenRemove(s: CartState, p: Product)
    requires !HasId(s.items, p.id)
    ensures Reduce(Reduce(s, AddItem(p)), RemoveItem(p.id)).items == s.items
    ensures Consistent(s) ==> Reduce(Reduce(s, AddItem(p)), RemoveItem(p.id)) == s
  {
    var keep := NotId(p.id);
    FilterAppend(s.items, [CartItem(p, 1)], keep);
    FilterKeepsAll(s.items, keep);
    assert Filter([CartItem(p, 1)], keep) == [];
  }

  // ---------------------------------------------------------------------------
  // UPDATE_QUANTITY

  /** Update stores the requested quantity verbatim, even zero or negative,
      in the one matching item, and nothing else changes. */
  lemma UpdatePresent(s: CartState, id: string, q: int, k: int)
    requires UniqueIds(s.items) && 0 <= k < |s.items| && s.items[k].product.id == id
    ensures var r := Reduce(s, UpdateQuantity(id, q));
      && r.items == s.items[k := CartItem(s.items[k].product, q)]
      && r.itemCount == SumCount(s.items) - s.items[k].quantity + q
      && r.total == SumTotal(s.items) + s.items[k].product.price * (q - s.items[k].quantity)
  {
    MapQuantityAt(s.items, id, _ => q, k);
    SumReplace(s.items, k, CartItem(s.items[k].product, q));
  }

  /** Updating an id that is not in the cart leaves the items unchanged. */
  lemma UpdateAbsent(s: CartState, id: string, q: int)
    requires !HasId(s.items, id)
    ensures Reduce(s, UpdateQuantity(id, q)).items == s.items
    ensures Consistent(s) ==> Reduce(s, UpdateQuantity(id, q)) == s
  {
    MapQuantityAbsent(s.items, id, _ => q);
  }

  // ---------------------------------------------------------------------------
  // CLEAR_CART and reachable states

  /** Clearing yields the initial state from any state. */
  lemma ClearIsInitial(s: CartState)
    ensures Reduce(s, ClearCart) == InitialState
  {
  }

  /** Every command keeps line items unique by id. */
  lemma ReducePreservesUnique(s: CartState, a: CartAction)
    requires UniqueIds(s.items)
    ensures UniqueIds(Reduce(s, a).items)
  {
    match a
    case AddItem(p) =>
      if HasId(s.items, p.id) {
        var k :| 0 <= k < |s.items| && s.items[k].product.id == p.id;
        AddExisting(s, p, k);
      } else {
        AddNew(s, p);
      }
    case RemoveItem(id) =>
      FilterUnique(s.items, id);
    case UpdateQuantity(id, q) =>
    case ClearCart =>
  }

  /** From the initial state, no sequence of commands produces two items with one id,
      and the aggregates always equal their recomputation. */
  lemma {:induction false} RunKeepsInvariants(s: CartState, actions: seq<CartAction>)
    requires UniqueIds(s.items) && Consistent(s)
    ensures UniqueIds(Run(s, actions).items) && Consistent(Run(s, actions))
    decreases |actions|
  {
    if actions != [] {
      ReducePreservesUnique(s, actions[0]);
      RunKeepsInvariants(Reduce(s, actions[0]), actions[1..]);
    }
  }

  lemma ReachableInvariants(actions: seq<CartAction>)
    ensures UniqueIds(Run(InitialState, actions).items) && Consistent(Run(InitialState, actions))
  {
    RunKeepsInvariants(InitialState, actions);
  }

  /** The worked example: add product 1 (299), add product 2 (259), set product 1 to 3. */
  lemma Scenario(p1: Product, p2: Product)
    requires p1.id == "1" && p1.price == 299 && p2.id == "2" && p2.price == 259
    ensures var r := Run(InitialState, [AddItem(p1), AddItem(p2), UpdateQuantity("1", 3)]);
      && r.items == [CartItem(p1, 3), CartItem(p2, 1)]
      && r.total == 1156 && r.itemCount == 4
  {
    var s1 := Reduce(InitialState, AddItem(p1));
    AddNew(InitialState, p1);
    assert s1.items == [CartItem(p1, 1)];
    var s2 := Reduce(s1, AddItem(p2));
    assert !HasId(s1.items, p2.id) by {
      assert p1.id != p2.id by { assert p1.id[0] != p2.id[0]; }
    }
    AddNew(s1, p2);
    assert s2.items == [CartItem(p1, 1), CartItem(p2, 1)];
    ReducePreservesUnique(InitialState, AddItem(p1));
    ReducePreservesUnique(s1, AddItem(p2));
    UpdatePresent(s2, "1", 3, 0);
    var s3 := Reduce(s2, UpdateQuantity("1", 3));
    assert s3.items == [CartItem(p1, 3), CartItem(p2, 1)];
    var actions := [AddItem(p1), AddItem(p2), UpdateQuantity("1", 3)];
    assert actions[1..][1..][1..] == [];
    assert Run(InitialState, actions) == Run(s1, actions[1..]) == Run(s2, actions[1..][1..]) == s3;
  }

  /** The store object: the one owned cart state, changed only by `Dispatch`. */
  class CartStore {
    var state: CartState

    ghost predicate Valid()
      reads this
    {
      Consistent(state) && UniqueIds(state.items)
    }

    constructor ()
      ensures Valid() && state == InitialState
    {
      state := InitialState;
    }

    /** `dispatch(action)`: apply the reducer to the current state. */
    method Dispatch(action: CartAction)
      requires Valid()
      modifies this
      ensures Valid() && state == Reduce(old(state), action)
    {
      ReducePreservesUnique(state, action);
      state := Reduce(state, action);
    }
  }
}
