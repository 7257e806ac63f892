/**
 * The shopping-cart store of the storefront (`CartProvider` / `useCart`):
 * an ordered sequence of line items held in one state slot, mirrored into
 * a persisted key-value entry after every change.
 *
 * Prices are integers in paise, so totals are exact. The cart transitions
 * are pure functions of the old cart (the updaters handed to `setCart`);
 * the class `CartProvider` owns the state slot and the storage entry.
 */
module CartStore {
  import opened Wrappers

  /** The settings of a custom print job, compared structurally. */
  datatype PrintSettings = PrintSettings(quality: string, fileUnit: string, rotationX: int, rotationY: int)

  /**
   * What `addItem` receives: every field of a cart row but its quantity.
   * An absent `isCustomPrint` is `false` (both are falsy).
   */
  datatype Item = Item(
    id: string,
    name: string,
    price: int,
    image: string,
    category: string,
    isCustomPrint: bool,
    printSettings: Option<PrintSettings>)

  /** One row of the cart: the item as added, and its quantity. */
  datatype Row = Row(item: Item, quantity: int)

  type Cart = seq<Row>

  /**
   * The identity rule of `addItem`: the ids agree and, when the item added is a
   * custom print, so do the print settings. A plain add ignores print settings.
   */
  predicate Matches(row: Row, item: Item)
  {
    row.item.id == item.id && (!item.isCustomPrint || row.item.printSettings == item.printSettings)
  }

  /** `k` is the index of the first row the item matches. */
  predicate FirstMatch(cart: Cart, item: Item, k: int)
  {
    0 <= k < |cart| && Matches(cart[k], item) && forall j :: 0 <= j < k ==> !Matches(cart[j], item)
  }

  /** `findIndex` with the identity rule: the first matching row, or -1 when none matches. */
  function FindIndex(cart: Cart, item: Item): (k: int)
    ensures -1 <= k < |cart|
    ensures k == -1 <==> forall j :: 0 <= j < |cart| ==> !Matches(cart[j], item)
    ensures k != -1 ==> FirstMatch(cart, item, k)
  {
    if cart == [] then -1
    else if Matches(cart[0], item) then 0
    else
      var k := FindIndex(cart[1..], item);
      if k == -1 then -1 else k + 1
  }

  /**
   * The cart `addItem(item, quantity)` produces: the first matching row's
   * quantity grows by `quantity`, or a new row is appended.
   */
  function Added(cart: Cart, item: Item, quantity: int): (r: Cart)
    ensures |r| == |cart| + 1 <==> forall j :: 0 <= j < |cart| ==> !Matches(cart[j], item)
    ensures |cart| <= |r| <= |cart| + 1
    ensures forall i :: 0 <= i < |cart| ==> r[i].item == cart[i].item
    ensures |r| == |cart| + 1 ==> r[|cart|] == Row(item, quantity)
  {
    var k := FindIndex(cart, item);
    if k == -1 then cart + [Row(item, quantity)]
    else cart[k := cart[k].(quantity := cart[k].quantity + quantity)]
  }

  /**
   * What `addItem` does: when some row matches, the first such row's quantity
   * grows by `quantity` and every other row, and the length, stay the same;
   * when none matches, one row carrying `quantity` is appended.
   */
  lemma AddedSpec(cart: Cart, item: Item, quantity: int)
    ensures forall k {:trigger FirstMatch(cart, item, k)} :: FirstMatch(cart, item, k) ==>
      && |Added(cart, item, quantity)| == |cart|
      && Added(cart, item, quantity)[k] == Row(cart[k].item, cart[k].quantity + quantity)
      && forall j :: 0 <= j < |cart| && j != k ==> Added(cart, item, quantity)[j] == cart[j]
    ensures (forall j :: 0 <= j < |cart| ==> !Matches(cart[j], item)) ==>
      Added(cart, item, quantity) == cart + [Row(item, quantity)]
  {
  }

  /** `cart.filter(item => item.id !== id)`. */
  function Removed(cart: Cart, id: string): (r: Cart)
    ensures |r| <= |cart|
    ensures forall i :: 0 <= i < |r| ==> r[i].item.id != id
  {
    if cart == [] then []
    else (if cart[0].item.id == id then [] else [cart[0]]) + Removed(cart[1..], id)
  }

  /** Removing keeps every row of another id, as often as it occurred, and drops every row of that id. */
  lemma {:induction false} RemovedMultiset(cart: Cart, id: string)
    ensures forall x :: multiset(Removed(cart, id))[x] == if x.item.id == id then 0 else multiset(cart)[x]
  {
    if cart != [] {
      RemovedMultiset(cart[1..], id);
      assert cart == [cart[0]] + cart[1..];
    }
  }

  /** `cart.map(item => item.id === id ? { ...item, quantity } : item)`. */
  function SetQuantity(cart: Cart, id: string, quantity: int): (r: Cart)
    ensures |r| == |cart|
    ensures forall i :: 0 <= i < |cart| ==> r[i].item == cart[i].item
    ensures forall i :: 0 <= i < |cart| ==>
      r[i].quantity == if cart[i].item.id == id then quantity else cart[i].quantity
  {
    if cart == [] then []
    else [if cart[0].item.id == id then cart[0].(quantity := quantity) else cart[0]]
         + SetQuantity(cart[1..], id, quantity)
  }

  /** The cart `updateQuantity(id, quantity)` leaves: unchanged below 1. */
  function Updated(cart: Cart, id: string, quantity: int): (r: Cart)
    ensures |r| == |cart|
    ensures forall i :: 0 <= i < |cart| ==> r[i].item == cart[i].item
    ensures forall i :: 0 <= i < |cart| ==>
      r[i].quantity == if quantity >= 1 && cart[i].item.id == id then quantity else cart[i].quantity
  {
    if quantity < 1 then cart else SetQuantity(cart, id, quantity)
  }

  /** `getCartTotal`: the left fold of price times quantity, starting at 0. */
  function Total(cart: Cart): (total: int)
    ensures cart == [] ==> total == 0
    ensures (forall i :: 0 <= i < |cart| ==> cart[i].item.price >= 0 && cart[i].quantity >= 0) ==> total >= 0
  {
    if cart == [] then 0
    else
      var last := cart[|cart| - 1];
      Total(cart[..|cart| - 1]) + last.item.price * last.quantity
  }

  /** `getItemCount`: the left fold of the quantities, starting at 0. */
  function Count(cart: Cart): (count: int)
    ensures cart == [] ==> count == 0
    ensures AllPositive(cart) ==> count >= |cart|
  {
    if cart == [] then 0
    else Count(cart[..|cart| - 1]) + cart[|cart| - 1].quantity
  }

  /** Every row holds at least one unit. */
  predicate AllPositive(cart: Cart)
  {
    forall i :: 0 <= i < |cart| ==> cart[i].quantity >= 1
  }

  /** The cart read back from the storage entry: the snapshot, or empty when the key is absent. */
  function Load(saved: Option<Cart>): (cart: Cart)
    ensures saved.None? ==> cart == []
    ensures saved.Some? ==> cart == saved.value
  {
    match saved
    case None => []
    case Some(snapshot) => snapshot
  }

  /** `useCart`: the context value, or the error thrown outside a provider. */
  function UseCart(context: Option<CartProvider>): (r: Result<CartProvider>)
    ensures r.Success? <==> context.Some?
    ensures r.Success? ==> r.value == context.value
    ensures r.Failure? ==> r.message == "useCart must be used within a CartProvider"
  {
    match context
    case None => Failure("useCart must be used within a CartProvider")
    case Some(provider) => Success(provider)
  }

  /** Removing keeps the order of the rows left: it distributes over concatenation. */
  lemma {:induction false} RemovedAppend(a: Cart, b: Cart, id: string)
    ensures Removed(a + b, id) == Removed(a, id) + Removed(b, id)
  {
    if a != [] {
      RemovedAppend(a[1..], b, id);
      assert (a + b)[1..] == a[1..] + b;
    } else {
      assert a + b == b;
    }
  }

  /** A cart without a row of that id is left as it is. */
  lemma {:induction false} RemovedNothing(cart: Cart, id: string)
    requires forall i :: 0 <= i < |cart| ==> cart[i].item.id != id
    ensures Removed(cart, id) == cart
  {
    if cart != [] {
      RemovedNothing(cart[1..], id);
      assert [cart[0]] + cart[1..] == cart;
    }
  }

  /** `removeItem` twice is `removeItem` once. */
  lemma RemovedIdempotent(cart: Cart, id: string)
    ensures Removed(Removed(cart, id), id) == Removed(cart, id)
  {
    RemovedNothing(Removed(cart, id), id);
  }

  lemma {:induction false} CountAppend(a: Cart, b: Cart)
    ensures Count(a + b) == Count(a) + Count(b)
    decreases |b|
  {
    if b != [] {
      var b' := b[..|b| - 1];
      assert (a + b)[..|a + b| - 1] == a + b';
      CountAppend(a, b');
    } else {
      assert a + b == a;
    }
  }

  lemma {:induction false} TotalAppend(a: Cart, b: Cart)
    ensures Total(a + b) == Total(a) + Total(b)
    decreases |b|
  {
    if b != [] {
      var b' := b[..|b| - 1];
      assert (a + b)[..|a + b| - 1] == a + b';
      TotalAppend(a, b');
    } else {
      assert a + b == a;
    }
  }

  /** Replacing one row changes the item count by the difference in quantity. */
  lemma CountAfterReplace(cart: Cart, k: int, row: Row)
    requires 0 <= k < |cart|
    ensures Count(cart[k := row]) == Count(cart) - cart[k].quantity + row.quantity
  {
    var before, after := cart[..k], cart[k + 1..];
    assert cart == before + [cart[k]] + after;
    assert cart[k := row] == before + [row] + after;
    CountAppend(before + [cart[k]], after);
    CountAppend(before, [cart[k]]);
    CountAppend(before + [row], after);
    CountAppend(before, [row]);
    assert [row][..0] == [] == [cart[k]][..0];
  }

  /** Replacing one row changes the total by the difference in that row's amount. */
  lemma TotalAfterReplace(cart: Cart, k: int, row: Row)
    requires 0 <= k < |cart|
    ensures Total(cart[k := row]) == Total(cart) - cart[k].item.price * cart[k].quantity
                                     + row.item.price * row.quantity
  {
    var before, after := cart[..k], cart[k + 1..];
    assert cart == before + [cart[k]] + after;
    assert cart[k := row] == before + [row] + after;
    TotalAppend(before + [cart[k]], after);
    TotalAppend(before, [cart[k]]);
    TotalAppend(before + [row], after);
    TotalAppend(before, [row]);
    assert [row][..0] == [] == [cart[k]][..0];
  }

  /** `addItem(item, quantity)` raises the item count by exactly `quantity`. */
  lemma AddedCount(cart: Cart, item: Item, quantity: int)
    ensures Count(Added(cart, item, quantity)) == Count(cart) + quantity
  {
    var k := FindIndex(cart, item);
    if k == -1 {
      CountAppend(cart, [Row(item, quantity)]);
      assert [Row(item, quantity)][..0] == [];
    } else {
      var merged := Row(cart[k].item, cart[k].quantity + quantity);
      assert Added(cart, item, quantity) == cart[k := merged];
      CountAfterReplace(cart, k, merged);
    }
  }

  /**
   * `addItem(item, quantity)` raises the total by `quantity` units at the price
   * of the row it lands in: the first matching row's own price when it merges
   * (the price passed in is then ignored), the item's price when it appends.
   */
  lemma AddedTotal(cart: Cart, item: Item, quantity: int)
    ensures forall k {:trigger FirstMatch(cart, item, k)} :: FirstMatch(cart, item, k) ==>
      Total(Added(cart, item, quantity)) == Total(cart) + cart[k].item.price * quantity
    ensures (forall j :: 0 <= j < |cart| ==> !Matches(cart[j], item)) ==>
      Total(Added(cart, item, quantity)) == Total(cart) + item.price * quantity
  {
    var k := FindIndex(cart, item);
    if k == -1 {
      TotalAppend(cart, [Row(item, quantity)]);
      assert [Row(item, quantity)][..0] == [];
    } else {
      forall k' | FirstMatch(cart, item, k')
        ensures Total(Added(cart, item, quantity)) == Total(cart) + cart[k'].item.price * quantity
      {
        FirstMatchUnique(cart, item, k, k');
        MergedTotal(cart, item, quantity, k);
      }
    }
  }

  lemma FirstMatchUnique(cart: Cart, item: Item, k: int, k': int)
    requires FirstMatch(cart, item, k) && FirstMatch(cart, item, k')
    ensures k == k'
  {
  }

  lemma MergedTotal(cart: Cart, item: Item, quantity: int, k: int)
    requires FindIndex(cart, item) == k != -1
    ensures Total(Added(cart, item, quantity)) == Total(cart) + cart[k].item.price * quantity
  {
    var row := cart[k];
    var merged := Row(row.item, row.quantity + quantity);
    assert Added(cart, item, quantity) == cart[k := merged];
    TotalAfterReplace(cart, k, merged);
    Distribute(row.item.price, row.quantity, quantity);
  }

  lemma Distribute(a: int, b: int, c: int)
    ensures a * (b + c) == a * b + a * c
  {
  }

  /** A plain (non-custom-print) add merges into the first row with the same id, whatever its print settings. */
  lemma PlainAddMergesById(cart: Cart, item: Item, quantity: int, k: int)
    requires !item.isCustomPrint
    requires 0 <= k < |cart| && cart[k].item.id == item.id
    requires forall j :: 0 <= j < k ==> cart[j].item.id != item.id
    ensures |Added(cart, item, quantity)| == |cart|
    ensures Added(cart, item, quantity)[k] == Row(cart[k].item, cart[k].quantity + quantity)
  {
    assert FirstMatch(cart, item, k);
    AddedSpec(cart, item, quantity);
  }

  /** The operations a consumer can apply to the store. */
  datatype Op =
    | Add(item: Item, quantity: int)
    | Remove(id: string)
    | Update(id: string, quantity: int)
    | Clear

  function Apply(cart: Cart, op: Op): Cart
  {
    match op
    case Add(item, quantity) => Added(cart, item, quantity)
    case Remove(id) => Removed(cart, id)
    case Update(id, quantity) => Updated(cart, id, quantity)
    case Clear => []
  }

  /** The cart after a sequence of operations, applied in order. */
  function Run(cart: Cart, ops: seq<Op>): Cart
    decreases |ops|
  {
    if ops == [] then cart else Run(Apply(cart, ops[0]), ops[1..])
  }

  /** Every add in the sequence uses a quantity of at least 1. */
  predicate PositiveAdds(ops: seq<Op>)
  {
    forall i :: 0 <= i < |ops| && ops[i].Add? ==> ops[i].quantity >= 1
  }

  /** One operation keeps every quantity at least 1, given an add of at least 1. */
  lemma ApplyKeepsPositive(cart: Cart, op: Op)
    requires AllPositive(cart)
    requires op.Add? ==> op.quantity >= 1
    ensures AllPositive(Apply(cart, op))
  {
    match op
    case Add(item, quantity) =>
      var k := FindIndex(cart, item);
      if k == -1 {
        assert Added(cart, item, quantity) == cart + [Row(item, quantity)];
      }
    case Remove(id) =>
      var r := Removed(cart, id);
      RemovedMultiset(cart, id);
      forall i | 0 <= i < |r|
        ensures r[i].quantity >= 1
      {
        assert multiset(r)[r[i]] > 0;
        assert r[i] in multiset(cart);
      }
    case Update(id, quantity) =>
    case Clear =>
  }

  /** Quantities stay at least 1 through any sequence of operations whose adds use at least 1. */
  lemma {:induction false} RunKeepsPositive(cart: Cart, ops: seq<Op>)
    requires AllPositive(cart)
    requires PositiveAdds(ops)
    ensures AllPositive(Run(cart, ops))
    decreases |ops|
  {
    if ops != [] {
      ApplyKeepsPositive(cart, ops[0]);
      assert PositiveAdds(ops[1..]) by {
        forall i | 0 <= i < |ops[1..]| && ops[1..][i].Add?
          ensures ops[1..][i].quantity >= 1
        {
          assert ops[1..][i] == ops[i + 1];
        }
      }
      RunKeepsPositive(Apply(cart, ops[0]), ops[1..]);
    }
  }

  /** The catalogue item of the end-to-end scenario: 100 paise, plain. */
  function Widget(): Item
  {
    Item("p1", "Widget", 100, "", "A", false, None)
  }

  /**
   * Adding a plain item, then two more of it, merges into one row of three;
   * a quantity of 0 is ignored; removing the id empties the cart.
   */
  lemma WidgetScenario()
    ensures Added([], Widget(), 1) == [Row(Widget(), 1)]
    ensures Total([Row(Widget(), 1)]) == 100 && Count([Row(Widget(), 1)]) == 1
    ensures Added([Row(Widget(), 1)], Widget(), 2) == [Row(Widget(), 3)]
    ensures Total([Row(Widget(), 3)]) == 300 && Count([Row(Widget(), 3)]) == 3
    ensures Updated([Row(Widget(), 3)], "p1", 0) == [Row(Widget(), 3)]
    ensures Removed([Row(Widget(), 3)], "p1") == []
  {
    assert FirstMatch([Row(Widget(), 1)], Widget(), 0);
    assert [Row(Widget(), 3)][..0] == [];
  }

  /** Two custom prints of one id with different settings take two rows; equal settings merge. */
  lemma PrintSettingsPartition(a: Item, quantity: int, b: Item)
    requires b.isCustomPrint && b.id == a.id
    ensures b.printSettings != a.printSettings ==> Added([Row(a, quantity)], b, 1) == [Row(a, quantity), Row(b, 1)]
    ensures b.printSettings == a.printSettings ==> Added([Row(a, quantity)], b, 1) == [Row(a, quantity + 1)]
  {
    if b.printSettings == a.printSettings {
      assert FirstMatch([Row(a, quantity)], b, 0);
    }
  }

  /** The store: the `cart` state slot and the persisted entry it is saved to. */
  class CartProvider {
    var cart: Cart
    /** The local-storage entry under the key "3deality-cart"; `None` when the key is absent. */
    var storage: Option<Cart>

    /** The save effect has run: the entry holds the current cart. */
    ghost predicate Valid()
      reads this
    {
      storage == Some(cart)
    }

    /** Mounting the provider: load the entry once, then the save effect writes it back. */
    constructor (saved: Option<Cart>)
      ensures cart == Load(saved)
      ensures saved.None? ==> cart == []
      ensures Valid() && Load(storage) == cart
    {
      cart := Load(saved);
      storage := Some(cart);
    }

    method AddItem(item: Item, quantity: int := 1)
      requires Valid()
      modifies this
      ensures cart == Added(old(cart), item, quantity)
      ensures Valid() && Load(storage) == cart
    {
      var k := FindIndex(cart, item);
      if k != -1 {
        var updatedCart := cart;
        updatedCart := updatedCart[k := updatedCart[k].(quantity := updatedCart[k].quantity + quantity)];
        cart := updatedCart;
      } else {
        cart := cart + [Row(item, quantity)];
      }
      storage := Some(cart);
    }

    method RemoveItem(id: string)
      requires Valid()
      modifies this
      ensures cart == Removed(old(cart), id)
      ensures Valid() && Load(storage) == cart
    {
      cart := Removed(cart, id);
      storage := Some(cart);
    }

    method UpdateQuantity(id: string, quantity: int)
      requires Valid()
      modifies this
      ensures cart == Updated(old(cart), id, quantity)
      ensures quantity < 1 ==> cart == old(cart) && storage == old(storage)
      ensures Valid() && Load(storage) == cart
    {
      if quantity < 1 {
        return;
      }
      cart := SetQuantity(cart, id, quantity);
      storage := Some(cart);
    }

    /** Empties the cart and removes the entry; the save effect then writes the empty cart. */
    method ClearCart()
      requires Valid()
      modifies this
      ensures cart == [] && storage == Some([])
      ensures Valid() && Load(storage) == []
    {
      cart := [];
      storage := None;
      storage := Some(cart);
    }

    function GetCartTotal(): (total: int)
      reads this
      ensures cart == [] ==> total == 0
      ensures (forall i :: 0 <= i < |cart| ==> cart[i].item.price >= 0 && cart[i].quantity >= 0) ==> total >= 0
      ensures total == Total(cart)
    {
      Total(cart)
    }

    function GetItemCount(): (count: int)
      reads this
      ensures cart == [] ==> count == 0
      ensures AllPositive(cart) ==> count >= |cart|
      ensures count == Count(cart)
    {
      Count(cart)
    }
  }
}
