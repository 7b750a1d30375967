/**
 * The cart store of `src/store/cartStore.js`: the current cart, the badge
 * count of items, and a loading flag.
 */
module CartStore {
  import opened Wrappers

  datatype CartItem = CartItem(quantity: int)

  /** A cart as the store sees it; `items` may be missing from the server's object. */
  datatype Cart = Cart(items: Option<seq<CartItem>>)

  /** The sum of the quantities, folded left to right from 0 (the `reduce`). */
  function SumQuantities(items: seq<CartItem>): int
    decreases |items|
  {
    if items == [] then 0 else SumQuantities(items[..|items| - 1]) + items[|items| - 1].quantity
  }

  /** `cart?.items?.reduce(...) || 0`: a missing cart or item list counts 0. */
  function ItemCount(cart: Option<Cart>): int {
    if cart.Some? && cart.value.items.Some? then SumQuantities(cart.value.items.value) else 0
  }

  /** The count splits over any division of the item list. */
  lemma {:induction false} SumQuantitiesAppend(a: seq<CartItem>, b: seq<CartItem>)
    ensures SumQuantities(a + b) == SumQuantities(a) + SumQuantities(b)
    decreases |b|
  {
    if b == [] {
      assert a + b == a;
    } else {
      var b' := b[..|b| - 1];
      assert (a + b)[..|a + b| - 1] == a + b';
      SumQuantitiesAppend(a, b');
    }
  }

  /** Quantities that are all at least one give a count of at least the number of lines. */
  lemma {:induction false} CountAtLeastLines(items: seq<CartItem>)
    requires forall i :: 0 <= i < |items| ==> items[i].quantity >= 1
    ensures SumQuantities(items) >= |items|
    decreases |items|
  {
    if items != [] {
      CountAtLeastLines(items[..|items| - 1]);
    }
  }

  /** A missing cart, or a cart without an item list, counts 0; one line counts its quantity. */
  lemma ItemCountEdgeCases(item: CartItem)
    ensures ItemCount(None) == 0
    ensures ItemCount(Some(Cart(None))) == 0
    ensures ItemCount(Some(Cart(Some([])))) == 0
    ensures ItemCount(Some(Cart(Some([item])))) == item.quantity
  {
    assert [item][..0] == [];
  }

  class Store {
    var cart: Option<Cart>
    var itemCount: int
    var isLoading: bool

    /** The badge agrees with the cart; true after `setCart` and `clearCart` only. */
    predicate CountMatchesCart()
      reads this
    {
      itemCount == ItemCount(cart)
    }

    constructor ()
      ensures cart == None && itemCount == 0 && !isLoading
      ensures CountMatchesCart()
    {
      cart, itemCount, isLoading := None, 0, false;
    }

    /** `setCart`: stores the cart and recomputes the count from its items. */
    method SetCart(c: Option<Cart>)
      modifies this
      ensures cart == c && itemCount == ItemCount(c) && isLoading == old(isLoading)
      ensures CountMatchesCart()
    {
      cart := c;
      itemCount := ItemCount(c);
    }

    method ClearCart()
      modifies this
      ensures cart == None && itemCount == 0 && isLoading == old(isLoading)
      ensures CountMatchesCart()
    {
      cart, itemCount := None, 0;
    }

    method SetLoading(b: bool)
      modifies this
      ensures isLoading == b && cart == old(cart) && itemCount == old(itemCount)
    {
      isLoading := b;
    }

    /**
     * `updateItemCount`: overwrites the count without looking at the cart,
     * so the badge agrees with the cart afterwards only if `count` happens
     * to be its sum.
     */
    method UpdateItemCount(count: int)
      modifies this
      ensures itemCount == count && cart == old(cart) && isLoading == old(isLoading)
      ensures CountMatchesCart() <==> count == ItemCount(old(cart))
    {
      itemCount := count;
    }
  }
}
