// The storefront's session store: one object owning the cart and the
// favorites. The five mutators replace one of the two fields, as each
// `set(...)` call does in the original; the three queries read them.

module UseStore {
  import opened CartLines
  import opened FavoriteIds

  class Store {
    var cart: seq<CartItem>
    var favorites: seq<string>

    /** The store's invariant: one line per product, every line at least one
        unit, and no identifier favorited twice. */
    ghost predicate Valid()
      reads this
    {
      WellFormed(cart) && NoDuplicates(favorites)
    }

    /** A fresh session starts with an empty cart and no favorites. */
    constructor ()
      ensures cart == [] && favorites == []
      ensures Valid()
    {
      cart := [];
      favorites := [];
    }

    // -------------------------------------------------------------------------
    // Queries

    /** `isFavorite`: the `includes` test on the favorites. */
    predicate IsFavorite(productId: string)
      reads this
    {
      productId in favorites
    }

    /** `getCartTotal`: the sum of `price * quantity` over the lines. */
    function CartTotal(): (total: int)
      reads this
      ensures cart == [] ==> total == 0
      ensures PositiveQuantities(cart) ==> total >= 0
    {
      assert PositiveQuantities(cart) ==> Total(cart) >= 0 by {
        if PositiveQuantities(cart) {
          TotalsBounds(cart);
        }
      }
      Total(cart)
    }

    /** `getCartItemsCount`: the number of units, not of distinct products. */
    function CartItemsCount(): (count: int)
      reads this
      ensures cart == [] ==> count == 0
      ensures PositiveQuantities(cart) ==> count >= |cart|
    {
      assert PositiveQuantities(cart) ==> ItemsCount(cart) >= |cart| by {
        if PositiveQuantities(cart) {
          TotalsBounds(cart);
        }
      }
      ItemsCount(cart)
    }

    // -------------------------------------------------------------------------
    // Cart mutators

    /** `addToCart`: one more unit of the product, on its existing line or on
        a new line at the end. */
    method AddToCart(product: Product)
      modifies this
      ensures cart == Added(old(cart), product)
      ensures favorites == old(favorites)
      ensures old(Valid()) ==> Valid()
      ensures old(DistinctIds(cart)) ==> CartItemsCount() == old(CartItemsCount()) + 1
      ensures old(DistinctIds(cart) && PriceCurrent(cart, product)) ==>
        CartTotal() == old(CartTotal()) + product.price
    {
      ghost var before := cart;
      if HasItem(cart, product.id) {
        cart := Incremented(cart, product.id);
      } else {
        cart := cart + [NewItem(product)];
      }
      if WellFormed(before) {
        AddedWellFormed(before, product);
      }
      if DistinctIds(before) {
        AddedCount(before, product);
        if PriceCurrent(before, product) {
          AddedTotal(before, product);
        }
      }
    }

    /** `removeFromCart`: drop the product's line, if there is one. */
    method RemoveFromCart(productId: string)
      modifies this
      ensures cart == Without(old(cart), productId)
      ensures !HasItem(cart, productId)
      ensures favorites == old(favorites)
      ensures old(Valid()) ==> Valid()
    {
      ghost var before := cart;
      cart := Without(cart, productId);
      assert forall i :: 0 <= i < |cart| ==> cart[i] in cart;
      if WellFormed(before) {
        WithoutWellFormed(before, productId);
      }
    }

    /** `updateQuantity`: a quantity of zero or less removes the line; a
        positive one replaces the line's quantity and never creates a line. */
    method UpdateQuantity(productId: string, quantity: int)
      modifies this
      ensures cart == Updated(old(cart), productId, quantity)
      ensures quantity <= 0 ==> cart == Without(old(cart), productId)
      ensures !HasItem(old(cart), productId) ==> cart == old(cart)
      ensures favorites == old(favorites)
      ensures old(Valid()) ==> Valid()
    {
      ghost var before := cart;
      if !HasItem(before, productId) {
        UpdatedAbsent(before, productId, quantity);
      }
      if quantity <= 0 {
        RemoveFromCart(productId);
        return;
      }
      cart := WithQuantity(cart, productId, quantity);
      if WellFormed(before) {
        UpdatedWellFormed(before, productId, quantity);
      }
    }

    /** `clearCart`: the cart becomes empty; the favorites stay. */
    method ClearCart()
      modifies this
      ensures cart == []
      ensures CartTotal() == 0 && CartItemsCount() == 0
      ensures favorites == old(favorites)
      ensures old(Valid()) ==> Valid()
    {
      cart := [];
    }

    // -------------------------------------------------------------------------
    // Favorites mutator

    /** `toggleFavorite`: unfavorite a favorited product, favorite any other. */
    method ToggleFavorite(productId: string)
      modifies this
      ensures favorites == Toggled(old(favorites), productId)
      ensures IsFavorite(productId) == !old(IsFavorite(productId))
      ensures cart == old(cart)
      ensures old(Valid()) ==> Valid()
    {
      ghost var before := favorites;
      if productId in favorites {
        favorites := Removed(favorites, productId);
      } else {
        favorites := favorites + [productId];
      }
      if NoDuplicates(before) {
        ToggledNoDuplicates(before, productId);
      }
    }
  }
}
