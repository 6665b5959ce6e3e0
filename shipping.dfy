/**
 * The free-shipping reminder shown under the cart total and again in the
 * checkout dialog. Both sit in the branch the cart sheet renders only for a
 * non-empty cart; an empty cart shows its "cart is empty" note instead. It is a
 * display rule only: it neither changes the total nor adds a shipping line.
 */
module Shipping {
  import opened Cart

  /** Orders at or above this total ship free. */
  const FreeShippingThreshold: int := 2500

  /**
   * The reminder shows exactly when the cart has lines and its total is below
   * the threshold: never for an empty cart, never at or above the threshold.
   */
  function ShowsReminder(cart: seq<CartItem>): (shown: bool)
    ensures shown ==> |cart| >= 1
    ensures TotalPrice(cart) >= FreeShippingThreshold ==> !shown
  {
    cart != [] && TotalPrice(cart) < FreeShippingThreshold
  }

  /** Every line's unit price is non-negative, as a catalog price is. */
  predicate PricesNonNegative(cart: seq<CartItem>)
  {
    forall j :: 0 <= j < |cart| ==> cart[j].product.price >= 0
  }

  /** The empty cart, as on a freshly loaded page, shows no reminder. */
  lemma EmptyCartNoReminder()
    ensures !ShowsReminder([])
  {
  }

  /** The rule at its boundary: shown at a total of 2499, hidden at 2500 and at 2501. */
  lemma ReminderBoundary(p: Product)
    requires p.price == 1
    ensures ShowsReminder([CartItem(p, 2499)])
    ensures !ShowsReminder([CartItem(p, 2500)])
    ensures !ShowsReminder([CartItem(p, 2501)])
  {
    TotalsSingle(CartItem(p, 2499));
    TotalsSingle(CartItem(p, 2500));
    TotalsSingle(CartItem(p, 2501));
  }

  /** The first add to an empty cart shows the reminder exactly when that product's price is below the threshold. */
  lemma FirstAddShowsReminder(p: Product)
    ensures ShowsReminder(AddToCart([], p)) <==> p.price < FreeShippingThreshold
  {
    AddToCartNew([], p);
    TotalsSingle(CartItem(p, 1));
  }

  /**
   * With non-negative prices, adding a product never lowers the total, so a
   * reminder hidden because the total reached the threshold stays hidden.
   */
  lemma AddKeepsReminderHidden(cart: seq<CartItem>, p: Product)
    requires UniqueIds(cart)
    requires PricesNonNegative(cart) && p.price >= 0
    ensures TotalPrice(AddToCart(cart, p)) >= TotalPrice(cart)
    ensures TotalPrice(cart) >= FreeShippingThreshold ==> !ShowsReminder(AddToCart(cart, p))
  {
    AddToCartTotals(cart, p);
  }

  /**
   * Removing a line with a non-negative subtotal never raises the total, so a
   * shown reminder stays shown as long as some line is left.
   */
  lemma RemoveKeepsReminderShown(cart: seq<CartItem>, k: nat)
    requires UniqueIds(cart)
    requires k < |cart| && cart[k].Subtotal() >= 0
    ensures TotalPrice(RemoveFromCart(cart, cart[k].Id())) <= TotalPrice(cart)
    ensures ShowsReminder(cart) && RemoveFromCart(cart, cart[k].Id()) != [] ==>
      ShowsReminder(RemoveFromCart(cart, cart[k].Id()))
  {
    RemoveTotals(cart, k);
  }

  /** Trashing the only line empties the cart, and with it the reminder goes away. */
  lemma TrashLastLineHidesReminder(x: CartItem)
    ensures RemoveFromCart([x], x.Id()) == []
    ensures !ShowsReminder(RemoveFromCart([x], x.Id()))
  {
    assert [x][1..] == [];
  }
}
