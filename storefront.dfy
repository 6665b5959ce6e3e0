/**
 * The storefront page's own state: the cart and the hero/about copy, each
 * replaced wholesale by its handler (`setCart`, `setHeroContent`,
 * `setAboutContent`) with a value computed from the current one.
 */
module IndexPage {
  import opened Options
  import opened Cart
  import CartActions
  import Shipping
  import Content

  class Storefront {
    var cart: seq<CartItem>
    var page: Content.PageContent

    /** The page on mount: an empty cart and empty stored copy. */
    constructor ()
      ensures cart == [] && page == Content.PageContent(Content.InitialHero, Content.InitialAbout)
      ensures CartActions.Valid(cart)
    {
      cart := [];
      page := Content.PageContent(Content.InitialHero, Content.InitialAbout);
    }

    method AddToCart(p: Product)
      modifies this
      ensures cart == Cart.AddToCart(old(cart), p) && page == old(page)
      ensures UniqueIds(old(cart)) ==> UniqueIds(cart) && Cart.CartCount(cart) == Cart.CartCount(old(cart)) + 1
    {
      if UniqueIds(cart) {
        AddToCartUnique(cart, p);
        AddToCartTotals(cart, p);
      }
      cart := Cart.AddToCart(cart, p);
    }

    method RemoveFromCart(id: int)
      modifies this
      ensures cart == Cart.RemoveFromCart(old(cart), id) && page == old(page)
      ensures !HasId(cart, id)
      ensures UniqueIds(old(cart)) ==> UniqueIds(cart)
    {
      if UniqueIds(cart) {
        RemoveUnique(cart, id);
      }
      cart := Cart.RemoveFromCart(cart, id);
    }

    method UpdateQuantity(id: int, q: int)
      modifies this
      ensures cart == Cart.UpdateQuantity(old(cart), id, q) && page == old(page)
      ensures UniqueIds(old(cart)) ==> UniqueIds(cart)
    {
      if UniqueIds(cart) {
        UpdateQuantityUnique(cart, id, q);
      }
      cart := Cart.UpdateQuantity(cart, id, q);
    }

    /** One press of a storefront button; it keeps the cart valid. */
    method Press(a: CartActions.Action)
      requires CartActions.Valid(cart)
      modifies this
      ensures cart == CartActions.Apply(old(cart), a) && page == old(page)
      ensures CartActions.Valid(cart)
    {
      CartActions.ApplyValid(cart, a);
      cart := CartActions.Apply(cart, a);
    }

    /** loadContent after its fetch: a failed fetch (`None`) changes nothing. */
    method LoadContent(response: Option<seq<Content.ContentSection>>)
      modifies this
      ensures page == Content.LoadContent(old(page), response) && cart == old(cart)
      ensures response.None? ==> page == old(page)
    {
      page := Content.LoadContent(page, response);
    }

    /** Whether the free-shipping reminder is shown: only with lines in the cart and a total below the threshold. */
    function ShowsFreeShippingReminder(): (shown: bool)
      reads this
      ensures shown ==> cart != [] && Cart.TotalPrice(cart) < Shipping.FreeShippingThreshold
    {
      Shipping.ShowsReminder(cart)
    }
  }
}
