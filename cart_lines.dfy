// The cart half of the storefront's session store: line items, the new cart
// each cart mutator builds (with `find`, `map`, `filter` and spread in the
// original), the two `reduce` folds behind the totals, and what they preserve.

module CartLines {

  /** A catalog product as the cart sees it: its identifier and its unit price in cents. */
  datatype Product = Product(id: string, price: nat)

  /** A line item: the product's fields plus the number of units in the cart. */
  datatype CartItem = CartItem(id: string, price: nat, quantity: int)

  /** The line item `addToCart` appends for a product that has none yet. */
  function NewItem(p: Product): CartItem
  {
    CartItem(p.id, p.price, 1)
  }

  /** What one line adds to the cart total: `price * quantity`. */
  function Subtotal(item: CartItem): int
  {
    item.price * item.quantity
  }

  /** What one line adds to the unit count. */
  function Units(item: CartItem): int
  {
    item.quantity
  }

  /** `cart.find(item => item.id === id)` finds something. */
  predicate HasItem(cart: seq<CartItem>, id: string)
  {
    exists i :: 0 <= i < |cart| && cart[i].id == id
  }

  /** At most one line item per product identifier. */
  ghost predicate DistinctIds(cart: seq<CartItem>)
  {
    forall i, j :: 0 <= i < j < |cart| ==> cart[i].id != cart[j].id
  }

  /** No line item holds zero or fewer units. */
  ghost predicate PositiveQuantities(cart: seq<CartItem>)
  {
    forall i :: 0 <= i < |cart| ==> cart[i].quantity >= 1
  }

  /** The cart invariant every mutator keeps. */
  ghost predicate WellFormed(cart: seq<CartItem>)
  {
    DistinctIds(cart) && PositiveQuantities(cart)
  }

  // ---------------------------------------------------------------------------
  // addToCart

  /** The `map` of `addToCart`: every line with this id gets one more unit. */
  function Incremented(cart: seq<CartItem>, id: string): seq<CartItem>
  {
    seq(|cart|, i requires 0 <= i < |cart| =>
      if cart[i].id == id then cart[i].(quantity := cart[i].quantity + 1) else cart[i])
  }

  /** The cart after `addToCart(p)`. */
  function Added(cart: seq<CartItem>, p: Product): (r: seq<CartItem>)
    ensures HasItem(r, p.id)
    ensures HasItem(cart, p.id) ==> |r| == |cart| && forall i :: 0 <= i < |r| ==>
      r[i] == if cart[i].id == p.id then cart[i].(quantity := cart[i].quantity + 1) else cart[i]
    ensures !HasItem(cart, p.id) ==>
      |r| == |cart| + 1 && r[..|cart|] == cart && r[|cart|] == CartItem(p.id, p.price, 1)
  {
    if HasItem(cart, p.id) then
      var k :| 0 <= k < |cart| && cart[k].id == p.id;
      assert Incremented(cart, p.id)[k].id == p.id;
      Incremented(cart, p.id)
    else
      assert (cart + [NewItem(p)])[|cart|].id == p.id;
      cart + [NewItem(p)]
  }

  /** Adding a product already in a well-kept cart (at position k) adds exactly
      one unit to that line and changes nothing else. */
  lemma AddedPresent(cart: seq<CartItem>, p: Product, k: nat)
    requires DistinctIds(cart) && k < |cart| && cart[k].id == p.id
    ensures Added(cart, p) == cart[k := cart[k].(quantity := cart[k].quantity + 1)]
  {
    var r, s := Added(cart, p), cart[k := cart[k].(quantity := cart[k].quantity + 1)];
    forall i | 0 <= i < |cart| ensures r[i] == s[i] {
      if i != k {
        assert cart[i].id != cart[k].id;
      }
    }
  }

  lemma AddedWellFormed(cart: seq<CartItem>, p: Product)
    requires WellFormed(cart)
    ensures WellFormed(Added(cart, p))
  {
    if HasItem(cart, p.id) {
      var k :| 0 <= k < |cart| && cart[k].id == p.id;
      AddedPresent(cart, p, k);
    }
  }

  /** The line for p, if there is one, carries p's current catalog price. */
  ghost predicate PriceCurrent(cart: seq<CartItem>, p: Product)
  {
    forall i :: 0 <= i < |cart| && cart[i].id == p.id ==> cart[i].price == p.price
  }

  /** One more unit on line k, at price `price`, moves the count by one and
      the total by that price. */
  lemma IncrementAtTotals(cart: seq<CartItem>, k: nat, price: nat)
    requires k < |cart| && cart[k].price == price
    ensures ItemsCount(cart[k := cart[k].(quantity := cart[k].quantity + 1)]) == ItemsCount(cart) + 1
    ensures Total(cart[k := cart[k].(quantity := cart[k].quantity + 1)]) == Total(cart) + price
  {
    var x := cart[k].(quantity := cart[k].quantity + 1);
    SumReplace(cart, k, x, Units);
    SumReplace(cart, k, x, Subtotal);
    assert Subtotal(x) == price * cart[k].quantity + price;
  }

  /** `addToCart(p)` raises the unit count by exactly one. */
  lemma AddedCount(cart: seq<CartItem>, p: Product)
    requires DistinctIds(cart)
    ensures ItemsCount(Added(cart, p)) == ItemsCount(cart) + 1
  {
    if HasItem(cart, p.id) {
      var k :| 0 <= k < |cart| && cart[k].id == p.id;
      AddedPresent(cart, p, k);
      IncrementAtTotals(cart, k, cart[k].price);
    } else {
      SumAppend(cart, NewItem(p), Units);
    }
  }

  /** `addToCart(p)` raises the total by exactly the price of one unit of p. */
  lemma AddedTotal(cart: seq<CartItem>, p: Product)
    requires DistinctIds(cart) && PriceCurrent(cart, p)
    ensures Total(Added(cart, p)) == Total(cart) + p.price
  {
    if HasItem(cart, p.id) {
      var k :| 0 <= k < |cart| && cart[k].id == p.id;
      AddedPresent(cart, p, k);
      IncrementAtTotals(cart, k, p.price);
    } else {
      SumAppend(cart, NewItem(p), Subtotal);
    }
  }

  // ---------------------------------------------------------------------------
  // removeFromCart

  /** The `filter` of `removeFromCart`: the lines whose id differs, in order. */
  function Without(cart: seq<CartItem>, id: string): (r: seq<CartItem>)
    ensures |r| <= |cart|
    ensures forall item :: item in r <==> item in cart && item.id != id
  {
    if cart == [] then []
    else if cart[0].id == id then Without(cart[1..], id)
    else [cart[0]] + Without(cart[1..], id)
  }

  /** Removal drops every copy of every line with the id, however many there
      are, and keeps every other line as often as it occurred. */
  lemma {:induction false} WithoutMultiplicity(cart: seq<CartItem>, id: string)
    ensures forall x :: multiset(Without(cart, id))[x] == if x.id == id then 0 else multiset(cart)[x]
  {
    if cart != [] {
      WithoutMultiplicity(cart[1..], id);
      assert cart == [cart[0]] + cart[1..];
      assert multiset(cart) == multiset{cart[0]} + multiset(cart[1..]);
    }
  }

  /** Removing an id that has no line is a no-op. */
  lemma {:induction false} WithoutAbsent(cart: seq<CartItem>, id: string)
    requires !HasItem(cart, id)
    ensures Without(cart, id) == cart
  {
    if cart != [] {
      assert cart[0].id != id;
      assert !HasItem(cart[1..], id) by {
        forall i | 0 <= i < |cart| - 1 ensures cart[1..][i].id != id {
          assert cart[1..][i] == cart[i + 1];
        }
      }
      WithoutAbsent(cart[1..], id);
      assert cart == [cart[0]] + cart[1..];
    }
  }

  lemma WithoutIdempotent(cart: seq<CartItem>, id: string)
    ensures Without(Without(cart, id), id) == Without(cart, id)
  {
    var r := Without(cart, id);
    assert !HasItem(r, id) by {
      forall i | 0 <= i < |r| ensures r[i].id != id {
        assert r[i] in r;
      }
    }
    WithoutAbsent(r, id);
  }

  /** Dropping the first line of a cart with distinct ids leaves a cart with
      distinct ids and no line for the dropped id. */
  lemma DistinctIdsTail(cart: seq<CartItem>)
    requires DistinctIds(cart) && cart != []
    ensures DistinctIds(cart[1..]) && !HasItem(cart[1..], cart[0].id)
  {
    var tail := cart[1..];
    forall i | 0 <= i < |tail| ensures tail[i] == cart[i + 1] {
    }
  }

  /** Deleting position k > 0 of a cart is deleting position k - 1 of its tail. */
  lemma SplitAfterHead(cart: seq<CartItem>, k: nat)
    requires 0 < k < |cart|
    ensures cart[..k] + cart[k + 1..] == [cart[0]] + (cart[1..][..k - 1] + cart[1..][k..])
  {
    assert cart[..k] == [cart[0]] + cart[1..][..k - 1];
    assert cart[k + 1..] == cart[1..][k..];
  }

  /** In a well-kept cart whose line k has the id, removal deletes exactly
      that line and keeps the others in order. */
  lemma {:induction false} WithoutAt(cart: seq<CartItem>, id: string, k: nat)
    requires DistinctIds(cart) && k < |cart| && cart[k].id == id
    ensures Without(cart, id) == cart[..k] + cart[k + 1..]
  {
    var tail := cart[1..];
    DistinctIdsTail(cart);
    if k == 0 {
      WithoutAbsent(tail, id);
    } else {
      assert tail[k - 1] == cart[k];
      WithoutAt(tail, id, k - 1);
      assert cart[0].id != id;
      SplitAfterHead(cart, k);
    }
  }

  /** Deleting one position keeps a cart well kept. */
  lemma DeletePositionWellFormed(cart: seq<CartItem>, k: nat)
    requires WellFormed(cart) && k < |cart|
    ensures WellFormed(cart[..k] + cart[k + 1..])
  {
    var r := cart[..k] + cart[k + 1..];
    forall i | 0 <= i < |r| ensures r[i] == cart[if i < k then i else i + 1] {
    }
  }

  lemma WithoutWellFormed(cart: seq<CartItem>, id: string)
    requires WellFormed(cart)
    ensures WellFormed(Without(cart, id))
  {
    if HasItem(cart, id) {
      var k :| 0 <= k < |cart| && cart[k].id == id;
      WithoutAt(cart, id, k);
      DeletePositionWellFormed(cart, k);
    } else {
      WithoutAbsent(cart, id);
    }
  }

  /** Removing line k takes away exactly its units and its subtotal. */
  lemma WithoutTotals(cart: seq<CartItem>, id: string, k: nat)
    requires DistinctIds(cart) && k < |cart| && cart[k].id == id
    ensures ItemsCount(Without(cart, id)) == ItemsCount(cart) - cart[k].quantity
    ensures Total(Without(cart, id)) == Total(cart) - cart[k].price * cart[k].quantity
  {
    WithoutAt(cart, id, k);
    SumDelete(cart, k, Units);
    SumDelete(cart, k, Subtotal);
  }

  // ---------------------------------------------------------------------------
  // updateQuantity and clearCart

  /** The `map` of `updateQuantity`: every line with this id gets the new quantity. */
  function WithQuantity(cart: seq<CartItem>, id: string, quantity: int): seq<CartItem>
  {
    seq(|cart|, i requires 0 <= i < |cart| =>
      if cart[i].id == id then cart[i].(quantity := quantity) else cart[i])
  }

  /** The cart after `updateQuantity(id, quantity)`. */
  function Updated(cart: seq<CartItem>, id: string, quantity: int): (r: seq<CartItem>)
    ensures quantity > 0 ==> |r| == |cart|
    ensures quantity > 0 ==> forall i :: 0 <= i < |r| ==>
      r[i].id == cart[i].id && r[i].price == cart[i].price &&
      r[i].quantity == (if cart[i].id == id then quantity else cart[i].quantity)
    ensures quantity <= 0 ==> !HasItem(r, id)
  {
    if quantity <= 0 then
      var r := Without(cart, id);
      assert forall i :: 0 <= i < |r| ==> r[i] in r;
      r
    else
      WithQuantity(cart, id, quantity)
  }

  /** Updating an id that has no line changes nothing, whatever the quantity. */
  lemma UpdatedAbsent(cart: seq<CartItem>, id: string, quantity: int)
    requires !HasItem(cart, id)
    ensures Updated(cart, id, quantity) == cart
  {
    if quantity <= 0 {
      WithoutAbsent(cart, id);
    } else {
      assert Updated(cart, id, quantity) == WithQuantity(cart, id, quantity);
    }
  }

  /** In a well-kept cart whose line k has the id, a positive quantity
      replaces that line's quantity and nothing else. */
  lemma UpdatedAt(cart: seq<CartItem>, id: string, quantity: int, k: nat)
    requires DistinctIds(cart) && k < |cart| && cart[k].id == id && quantity > 0
    ensures Updated(cart, id, quantity) == cart[k := cart[k].(quantity := quantity)]
  {
    var r, s := Updated(cart, id, quantity), cart[k := cart[k].(quantity := quantity)];
    forall i | 0 <= i < |cart| ensures r[i] == s[i] {
      if i != k {
        assert cart[i].id != cart[k].id;
      }
    }
  }

  lemma UpdatedWellFormed(cart: seq<CartItem>, id: string, quantity: int)
    requires WellFormed(cart)
    ensures WellFormed(Updated(cart, id, quantity))
  {
    if quantity <= 0 {
      WithoutWellFormed(cart, id);
    } else if HasItem(cart, id) {
      var k :| 0 <= k < |cart| && cart[k].id == id;
      UpdatedAt(cart, id, quantity, k);
    } else {
      UpdatedAbsent(cart, id, quantity);
    }
  }

  /** A positive update of line k moves the unit count and the total by the
      difference between the new and the old quantity. */
  lemma UpdatedTotals(cart: seq<CartItem>, id: string, quantity: int, k: nat)
    requires DistinctIds(cart) && k < |cart| && cart[k].id == id && quantity > 0
    ensures ItemsCount(Updated(cart, id, quantity)) == ItemsCount(cart) - cart[k].quantity + quantity
    ensures Total(Updated(cart, id, quantity)) ==
      Total(cart) + cart[k].price * (quantity - cart[k].quantity)
  {
    UpdatedAt(cart, id, quantity, k);
    var x := cart[k].(quantity := quantity);
    SumReplace(cart, k, x, Units);
    SumReplace(cart, k, x, Subtotal);
    assert Subtotal(x) - Subtotal(cart[k]) == cart[k].price * (quantity - cart[k].quantity);
  }

  // ---------------------------------------------------------------------------
  // getCartTotal and getCartItemsCount: `reduce` from the left, starting at 0

  function Sum(cart: seq<CartItem>, weight: CartItem -> int): int
  {
    if cart == [] then 0 else Sum(cart[..|cart| - 1], weight) + weight(cart[|cart| - 1])
  }

  /** `getCartTotal`: the sum of `price * quantity` over the lines. */
  function Total(cart: seq<CartItem>): int
  {
    Sum(cart, Subtotal)
  }

  /** `getCartItemsCount`: the sum of the quantities over the lines. */
  function ItemsCount(cart: seq<CartItem>): int
  {
    Sum(cart, Units)
  }

  /** The fold is additive over concatenation: each line contributes its own
      weight once. */
  lemma {:induction false} SumConcat(a: seq<CartItem>, b: seq<CartItem>, weight: CartItem -> int)
    ensures Sum(a + b, weight) == Sum(a, weight) + Sum(b, weight)
  {
    if b != [] {
      var b' := b[..|b| - 1];
      assert (a + b)[..|a + b| - 1] == a + b';
      assert (a + b)[|a + b| - 1] == b[|b| - 1];
      SumConcat(a, b', weight);
    } else {
      assert a + b == a;
    }
  }

  lemma SumAppend(cart: seq<CartItem>, x: CartItem, weight: CartItem -> int)
    ensures Sum(cart + [x], weight) == Sum(cart, weight) + weight(x)
  {
    assert (cart + [x])[..|cart|] == cart;
  }

  /** Deleting line k takes away exactly its weight. */
  lemma SumDelete(cart: seq<CartItem>, k: nat, weight: CartItem -> int)
    requires k < |cart|
    ensures Sum(cart[..k] + cart[k + 1..], weight) == Sum(cart, weight) - weight(cart[k])
  {
    var before, upTo, after := cart[..k], cart[..k + 1], cart[k + 1..];
    assert upTo == before + [cart[k]];
    assert cart == upTo + after;
    SumAppend(before, cart[k], weight);
    SumConcat(upTo, after, weight);
    SumConcat(before, after, weight);
  }

  /** Replacing line k by x changes the sum by the difference of their weights. */
  lemma SumReplace(cart: seq<CartItem>, k: nat, x: CartItem, weight: CartItem -> int)
    requires k < |cart|
    ensures Sum(cart[k := x], weight) == Sum(cart, weight) - weight(cart[k]) + weight(x)
  {
    var s := cart[k := x];
    assert s[..k] == cart[..k] && s[k + 1..] == cart[k + 1..] && s[k] == x;
    SumDelete(cart, k, weight);
    SumDelete(s, k, weight);
  }

  /** With every quantity positive, each line holds at least one unit and
      costs nothing negative. */
  lemma {:induction false} TotalsBounds(cart: seq<CartItem>)
    requires PositiveQuantities(cart)
    ensures ItemsCount(cart) >= |cart|
    ensures Total(cart) >= 0
  {
    if cart != [] {
      var init := cart[..|cart| - 1];
      assert PositiveQuantities(init) by {
        forall i | 0 <= i < |init| ensures init[i].quantity >= 1 {
          assert init[i] == cart[i];
        }
      }
      TotalsBounds(init);
      assert cart[|cart| - 1].quantity >= 1;
    }
  }
}
