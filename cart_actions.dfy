/**
 * What the storefront's buttons do to the cart. The catalog's "add to cart"
 * button calls addToCart with its product; each rendered cart line carries a
 * minus button (updateQuantity(id, quantity - 1)), a plus button
 * (updateQuantity(id, quantity + 1)) and a trash button (removeFromCart(id)).
 * A line's buttons exist only while the line does, so they name a line by its
 * position in the rendered cart.
 */
module CartActions {
  import opened Cart

  datatype Action =
    | AddProduct(product: Product)
    | Minus(line: nat)
    | Plus(line: nat)
    | Trash(line: nat)

  /**
   * The cart after one button press; a press on a line that is not rendered
   * changes nothing. The cart grows by at most one line, an added product
   * always has a line afterwards, a trashed line's id is gone, and plus on a
   * line of non-negative quantity keeps the length.
   */
  function Apply(cart: seq<CartItem>, a: Action): (r: seq<CartItem>)
    ensures |r| <= |cart| + 1
    ensures a.AddProduct? ==> HasId(r, a.product.id)
    ensures a.Trash? && a.line < |cart| ==> !HasId(r, cart[a.line].Id())
    ensures a.Plus? && a.line < |cart| && cart[a.line].quantity >= 0 ==> |r| == |cart|
  {
    match a
    case AddProduct(p) => AddToCart(cart, p)
    case Minus(k) => if k < |cart| then UpdateQuantity(cart, cart[k].Id(), cart[k].quantity - 1) else cart
    case Plus(k) => if k < |cart| then UpdateQuantity(cart, cart[k].Id(), cart[k].quantity + 1) else cart
    case Trash(k) => if k < |cart| then RemoveFromCart(cart, cart[k].Id()) else cart
  }

  /** The cart after a sequence of presses, in order; each press adds at most one line. */
  function Run(cart: seq<CartItem>, actions: seq<Action>): (r: seq<CartItem>)
    ensures |r| <= |cart| + |actions|
  {
    if actions == [] then cart
    else Apply(Run(cart, actions[..|actions| - 1]), actions[|actions| - 1])
  }

  /** The invariant the buttons keep: one line per product id, every quantity at least 1. */
  predicate Valid(cart: seq<CartItem>)
  {
    UniqueIds(cart) && QuantitiesPositive(cart)
  }

  /** Dropping the line at `k` from a valid cart leaves a valid cart. */
  lemma DropValid(cart: seq<CartItem>, k: nat)
    requires Valid(cart) && k < |cart|
    ensures Valid(RemoveFromCart(cart, cart[k].Id()))
  {
    RemoveUnique(cart, cart[k].Id());
    RemoveAt(cart, k);
    var r := cart[..k] + cart[k + 1..];
    assert forall j :: 0 <= j < |r| ==> r[j] == cart[if j < k then j else j + 1];
  }

  /** Setting line `k` of a valid cart to a positive quantity leaves a valid cart. */
  lemma SetValid(cart: seq<CartItem>, k: nat, q: int)
    requires Valid(cart) && k < |cart| && q >= 1
    ensures Valid(UpdateQuantity(cart, cart[k].Id(), q))
  {
    UpdateQuantityUnique(cart, cart[k].Id(), q);
    UpdateQuantityAt(cart, k, q);
  }

  /** addToCart from the catalog keeps a valid cart valid. */
  lemma AddValid(cart: seq<CartItem>, p: Product)
    requires Valid(cart)
    ensures Valid(AddToCart(cart, p))
  {
    AddToCartUnique(cart, p);
    match Find(cart, p.id)
    case Some(k) =>
      AddToCartExisting(cart, p, k);
    case None =>
      AddToCartNew(cart, p);
  }

  /** Every button press keeps the cart valid. */
  lemma ApplyValid(cart: seq<CartItem>, a: Action)
    requires Valid(cart)
    ensures Valid(Apply(cart, a))
  {
    match a
    case AddProduct(p) =>
      AddValid(cart, p);
    case Minus(k) =>
      if k < |cart| {
        if cart[k].quantity == 1 {
          DropValid(cart, k);
        } else {
          SetValid(cart, k, cart[k].quantity - 1);
        }
      }
    case Plus(k) =>
      if k < |cart| {
        SetValid(cart, k, cart[k].quantity + 1);
      }
    case Trash(k) =>
      if k < |cart| {
        DropValid(cart, k);
      }
  }

  /** Any sequence of button presses from a valid cart ends in a valid cart. */
  lemma {:induction false} RunValid(cart: seq<CartItem>, actions: seq<Action>)
    requires Valid(cart)
    ensures Valid(Run(cart, actions))
  {
    if actions != [] {
      RunValid(cart, actions[..|actions| - 1]);
      ApplyValid(Run(cart, actions[..|actions| - 1]), actions[|actions| - 1]);
    }
  }

  /** The minus button on a line at quantity 1 removes the line instead of leaving it at 0. */
  lemma MinusAtOne(cart: seq<CartItem>, k: nat)
    requires Valid(cart)
    requires k < |cart| && cart[k].quantity == 1
    ensures Apply(cart, Minus(k)) == cart[..k] + cart[k + 1..]
    ensures !HasId(Apply(cart, Minus(k)), cart[k].Id())
  {
    RemoveAt(cart, k);
  }

  /** The minus button on a line above quantity 1 lowers it by one and touches nothing else. */
  lemma MinusAboveOne(cart: seq<CartItem>, k: nat)
    requires Valid(cart)
    requires k < |cart| && cart[k].quantity > 1
    ensures Apply(cart, Minus(k)) == cart[k := cart[k].(quantity := cart[k].quantity - 1)]
    ensures CartCount(Apply(cart, Minus(k))) == CartCount(cart) - 1
  {
    UpdateQuantityAt(cart, k, cart[k].quantity - 1);
    UpdateQuantityTotals(cart, k, cart[k].quantity - 1);
  }

  /** The plus button raises its line by one, exactly as adding that line's product again would. */
  lemma PlusIsAddAgain(cart: seq<CartItem>, k: nat)
    requires Valid(cart)
    requires k < |cart|
    ensures Apply(cart, Plus(k)) == cart[k := cart[k].(quantity := cart[k].quantity + 1)]
    ensures Apply(cart, Plus(k)) == AddToCart(cart, cart[k].product)
  {
    UpdateQuantityAt(cart, k, cart[k].quantity + 1);
    AddToCartExisting(cart, cart[k].product, k);
  }

  /** All presses are catalog adds of pairwise distinct products. */
  predicate DistinctAdds(actions: seq<Action>)
  {
    (forall i :: 0 <= i < |actions| ==> actions[i].AddProduct?) &&
    forall i, j :: 0 <= i < j < |actions| && actions[i].AddProduct? && actions[j].AddProduct? ==>
      actions[i].product.id != actions[j].product.id
  }

  /**
   * Adding distinct products to an empty cart gives one line per product, in
   * the order added, each at quantity 1; cartCount is the number of adds.
   */
  lemma {:induction false} RunDistinctAdds(actions: seq<Action>)
    requires DistinctAdds(actions)
    ensures |Run([], actions)| == |actions|
    ensures forall i :: 0 <= i < |actions| ==> Run([], actions)[i] == CartItem(actions[i].product, 1)
    ensures CartCount(Run([], actions)) == |actions|
  {
    if actions != [] {
      var n := |actions| - 1;
      var init := actions[..n];
      assert DistinctAdds(init) by {
        assert forall i :: 0 <= i < n ==> init[i] == actions[i];
      }
      RunDistinctAdds(init);
      var before := Run([], init);
      var p := actions[n].product;
      assert !HasId(before, p.id) by {
        forall j | 0 <= j < |before| ensures before[j].Id() != p.id {
          assert before[j] == CartItem(init[j].product, 1);
          assert init[j] == actions[j];
        }
      }
      AddToCartNew(before, p);
      var after := before + [CartItem(p, 1)];
      assert Run([], actions) == after by {
        assert Run([], actions) == Apply(before, actions[n]);
      }
      forall i | 0 <= i < |actions| ensures after[i] == CartItem(actions[i].product, 1) {
        if i < n {
          assert init[i] == actions[i];
        }
      }
      TotalsAppend(before, [CartItem(p, 1)]);
      TotalsSingle(CartItem(p, 1));
    }
  }
}
