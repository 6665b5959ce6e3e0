/**
 * The storefront's shopping-cart engine: a cart is an ordered list of lines,
 * each a snapshot of a catalog product plus a quantity. Every operation builds
 * a new list from the current one; the two totals are reductions over it.
 */
module Cart {
  import opened Options

  /** A catalog product. Prices are whole currency units (entered with parseInt). */
  datatype Product = Product(
    id: int,
    name: string,
    description: string,
    price: int,
    weight: string,
    image: string,
    category: string)

  /** A cart line: the product as it was when first added, and how many of it. */
  datatype CartItem = CartItem(product: Product, quantity: int)
  {
    function Id(): int { product.id }

    /** What this line contributes to the cart's total price. */
    function Subtotal(): int { product.price * quantity }
  }

  /** Some line of the cart carries the product id `id`. */
  predicate HasId(cart: seq<CartItem>, id: int)
  {
    exists j :: 0 <= j < |cart| && cart[j].Id() == id
  }

  /** The cart's invariant: at most one line per product id. */
  predicate UniqueIds(cart: seq<CartItem>)
  {
    forall i, j :: 0 <= i < |cart| && 0 <= j < |cart| && cart[i].Id() == cart[j].Id() ==> i == j
  }

  /** Every line contributes a non-negative amount to the total price. */
  predicate SubtotalsNonNegative(cart: seq<CartItem>)
  {
    forall j :: 0 <= j < |cart| ==> cart[j].Subtotal() >= 0
  }

  /** Every line holds at least one item. */
  predicate QuantitiesPositive(cart: seq<CartItem>)
  {
    forall j :: 0 <= j < |cart| ==> cart[j].quantity >= 1
  }

  // ---------------------------------------------------------------------------
  // Operations
  // ---------------------------------------------------------------------------

  /** The position of the first line with product id `id`, as `cart.find` on the id. */
  function Find(cart: seq<CartItem>, id: int): (r: Option<nat>)
    ensures r.None? <==> !HasId(cart, id)
    ensures r.Some? ==> r.value < |cart| && cart[r.value].Id() == id
    ensures r.Some? ==> forall j :: 0 <= j < r.value ==> cart[j].Id() != id
  {
    if cart == [] then None
    else if cart[0].Id() == id then Some(0)
    else
      match Find(cart[1..], id)
      case None =>
        assert forall j :: 1 <= j < |cart| ==> cart[j] == cart[1..][j - 1];
        None
      case Some(k) => Some(k + 1)
  }

  /**
   * The cart with every line whose id is `id` raised by one: same length, same
   * ids and snapshots in the same order, and only the matching lines' quantities move.
   */
  function Bumped(cart: seq<CartItem>, id: int): (r: seq<CartItem>)
    ensures |r| == |cart|
    ensures forall k :: 0 <= k < |r| ==> r[k].product == cart[k].product
    ensures forall k :: 0 <= k < |r| ==> r[k].quantity - cart[k].quantity == if cart[k].Id() == id then 1 else 0
  {
    seq(|cart|, k requires 0 <= k < |cart| =>
      if cart[k].Id() == id then cart[k].(quantity := cart[k].quantity + 1) else cart[k])
  }

  /**
   * The cart with every line whose id is `id` set to quantity `q`: same length,
   * same ids and snapshots in the same order, other lines untouched.
   */
  function WithQuantity(cart: seq<CartItem>, id: int, q: int): (r: seq<CartItem>)
    ensures |r| == |cart|
    ensures forall k :: 0 <= k < |r| ==> r[k].product == cart[k].product
    ensures forall k :: 0 <= k < |r| && cart[k].Id() == id ==> r[k].quantity == q
    ensures forall k :: 0 <= k < |r| && cart[k].Id() != id ==> r[k] == cart[k]
  {
    seq(|cart|, k requires 0 <= k < |cart| =>
      if cart[k].Id() == id then cart[k].(quantity := q) else cart[k])
  }

  /**
   * addToCart: raise the existing line for the product by one, or append a
   * fresh line with quantity 1 at the end. Either way the product then has a
   * line, the existing lines keep their ids in order, and the cart grows by
   * one line exactly when the product had none.
   */
  function AddToCart(cart: seq<CartItem>, p: Product): (r: seq<CartItem>)
    ensures |r| == if HasId(cart, p.id) then |cart| else |cart| + 1
    ensures HasId(r, p.id)
    ensures forall j :: 0 <= j < |cart| ==> r[j].Id() == cart[j].Id()
  {
    if Find(cart, p.id).Some? then
      var r := Bumped(cart, p.id);
      assert r[Find(cart, p.id).value].Id() == p.id;
      r
    else
      var r := cart + [CartItem(p, 1)];
      assert r[|cart|].Id() == p.id;
      r
  }

  /** removeFromCart: keep, in order, the lines whose id is not `id`. */
  function RemoveFromCart(cart: seq<CartItem>, id: int): (r: seq<CartItem>)
    ensures |r| <= |cart|
    ensures forall x :: x in r <==> x in cart && x.Id() != id
    ensures !HasId(r, id)
  {
    if cart == [] then []
    else if cart[0].Id() == id then RemoveFromCart(cart[1..], id)
    else [cart[0]] + RemoveFromCart(cart[1..], id)
  }

  /**
   * updateQuantity: quantity 0 removes the line, any other value overwrites it.
   * Afterwards no line with the id is left at 0 and no line with another id has changed.
   */
  function UpdateQuantity(cart: seq<CartItem>, id: int, q: int): (r: seq<CartItem>)
    ensures q == 0 ==> !HasId(r, id)
    ensures q != 0 ==> |r| == |cart| && forall j :: 0 <= j < |r| ==> r[j].product == cart[j].product
    ensures q != 0 ==> forall j :: 0 <= j < |r| ==> r[j].quantity == if cart[j].Id() == id then q else cart[j].quantity
    ensures forall x :: x in cart && x.Id() != id ==> x in r
  {
    if q == 0 then RemoveFromCart(cart, id)
    else
      var r := WithQuantity(cart, id, q);
      assert forall x :: x in cart && x.Id() != id ==> x in r by {
        forall x | x in cart && x.Id() != id ensures x in r {
          var k :| 0 <= k < |cart| && cart[k] == x;
          assert r[k] == x;
        }
      }
      r
  }

  /**
   * totalPrice: the sum of price times quantity over the lines, folded from the
   * left starting at 0. It is non-negative when every line's subtotal is.
   */
  function TotalPrice(cart: seq<CartItem>): (r: int)
    ensures SubtotalsNonNegative(cart) ==> r >= 0
  {
    if cart == [] then 0 else TotalPrice(cart[..|cart| - 1]) + cart[|cart| - 1].Subtotal()
  }

  /**
   * cartCount: the sum of the quantities, folded from the left starting at 0.
   * When every quantity is at least 1 it is at least the number of lines.
   */
  function CartCount(cart: seq<CartItem>): (r: int)
    ensures QuantitiesPositive(cart) ==> r >= |cart|
  {
    if cart == [] then 0 else CartCount(cart[..|cart| - 1]) + cart[|cart| - 1].quantity
  }

  // ---------------------------------------------------------------------------
  // Totals
  // ---------------------------------------------------------------------------

  /** Both totals split over a concatenation. */
  lemma {:induction false} TotalsAppend(a: seq<CartItem>, b: seq<CartItem>)
    ensures TotalPrice(a + b) == TotalPrice(a) + TotalPrice(b)
    ensures CartCount(a + b) == CartCount(a) + CartCount(b)
  {
    if b == [] {
      assert a + b == a;
    } else {
      var ab := a + b;
      assert ab[..|ab| - 1] == a + b[..|b| - 1];
      assert ab[|ab| - 1] == b[|b| - 1];
      TotalsAppend(a, b[..|b| - 1]);
    }
  }

  /** The totals of a single line. */
  lemma TotalsSingle(x: CartItem)
    ensures TotalPrice([x]) == x.Subtotal() && CartCount([x]) == x.quantity
  {
    assert [x][..0] == [];
  }

  /** Both totals split around the line at position `k`. */
  lemma TotalsSplit(cart: seq<CartItem>, k: nat)
    requires k < |cart|
    ensures TotalPrice(cart) == TotalPrice(cart[..k]) + cart[k].Subtotal() + TotalPrice(cart[k + 1..])
    ensures CartCount(cart) == CartCount(cart[..k]) + cart[k].quantity + CartCount(cart[k + 1..])
  {
    var pre, mid, post := cart[..k], [cart[k]], cart[k + 1..];
    assert cart == pre + mid + post;
    TotalsAppend(pre + mid, post);
    TotalsAppend(pre, mid);
    TotalsSingle(cart[k]);
  }

  /** Replacing one line changes each total by exactly that line's difference. */
  lemma TotalsReplace(cart: seq<CartItem>, k: nat, x: CartItem)
    requires k < |cart|
    ensures TotalPrice(cart[k := x]) == TotalPrice(cart) - cart[k].Subtotal() + x.Subtotal()
    ensures CartCount(cart[k := x]) == CartCount(cart) - cart[k].quantity + x.quantity
  {
    var r := cart[k := x];
    assert r[..k] == cart[..k] && r[k + 1..] == cart[k + 1..];
    TotalsSplit(cart, k);
    TotalsSplit(r, k);
  }

  /** Dropping one line lowers each total by exactly that line's share. */
  lemma TotalsDrop(cart: seq<CartItem>, k: nat)
    requires k < |cart|
    ensures TotalPrice(cart[..k] + cart[k + 1..]) == TotalPrice(cart) - cart[k].Subtotal()
    ensures CartCount(cart[..k] + cart[k + 1..]) == CartCount(cart) - cart[k].quantity
  {
    TotalsAppend(cart[..k], cart[k + 1..]);
    TotalsSplit(cart, k);
  }

  // ---------------------------------------------------------------------------
  // addToCart
  // ---------------------------------------------------------------------------

  /**
   * When the cart already holds a line for `p`, that line's quantity rises by
   * exactly one; length, order and every other line stay as they were.
   */
  lemma AddToCartExisting(cart: seq<CartItem>, p: Product, k: nat)
    requires UniqueIds(cart)
    requires k < |cart| && cart[k].Id() == p.id
    ensures AddToCart(cart, p) == cart[k := cart[k].(quantity := cart[k].quantity + 1)]
  {
    assert Find(cart, p.id).Some?;
    var r := AddToCart(cart, p);
    var s := cart[k := cart[k].(quantity := cart[k].quantity + 1)];
    assert |r| == |s|;
    forall j | 0 <= j < |r| ensures r[j] == s[j] {
      if j != k {
        assert cart[j].Id() != p.id;
      }
    }
  }

  /** When no line has `p`'s id, exactly one line `{p, quantity 1}` is appended. */
  lemma AddToCartNew(cart: seq<CartItem>, p: Product)
    requires !HasId(cart, p.id)
    ensures AddToCart(cart, p) == cart + [CartItem(p, 1)]
  {
  }

  /**
   * After addToCart, cartCount rises by one and totalPrice by the unit price
   * of the line that was bumped or appended: the existing line's own snapshot
   * price, or `p.price` for a new line.
   */
  lemma AddToCartTotals(cart: seq<CartItem>, p: Product)
    requires UniqueIds(cart)
    ensures CartCount(AddToCart(cart, p)) == CartCount(cart) + 1
    ensures TotalPrice(AddToCart(cart, p)) == TotalPrice(cart) +
      (match Find(cart, p.id) case Some(k) => cart[k].product.price case None => p.price)
  {
    match Find(cart, p.id)
    case Some(k) =>
      AddToCartExisting(cart, p, k);
      BumpTotals(cart, k);
    case None =>
      AddToCartNew(cart, p);
      TotalsAppend(cart, [CartItem(p, 1)]);
      TotalsSingle(CartItem(p, 1));
  }

  /** Raising line `k` by one raises cartCount by one and totalPrice by that line's unit price. */
  lemma BumpTotals(cart: seq<CartItem>, k: nat)
    requires k < |cart|
    ensures CartCount(cart[k := cart[k].(quantity := cart[k].quantity + 1)]) == CartCount(cart) + 1
    ensures TotalPrice(cart[k := cart[k].(quantity := cart[k].quantity + 1)]) ==
      TotalPrice(cart) + cart[k].product.price
  {
    var x := cart[k].(quantity := cart[k].quantity + 1);
    TotalsReplace(cart, k, x);
    OneMore(cart[k].product.price, cart[k].quantity);
  }

  /** One more item adds one more unit price. */
  lemma OneMore(price: int, q: int)
    ensures price * (q + 1) == price * q + price
  {
  }

  /** When the cart's line for `p` is a snapshot of `p` itself, totalPrice rises by `p.price`. */
  lemma AddToCartPrice(cart: seq<CartItem>, p: Product)
    requires UniqueIds(cart)
    requires forall j :: 0 <= j < |cart| && cart[j].Id() == p.id ==> cart[j].product == p
    ensures TotalPrice(AddToCart(cart, p)) == TotalPrice(cart) + p.price
  {
    AddToCartTotals(cart, p);
  }

  /** addToCart keeps ids unique. */
  lemma AddToCartUnique(cart: seq<CartItem>, p: Product)
    requires UniqueIds(cart)
    ensures UniqueIds(AddToCart(cart, p))
  {
    var r := AddToCart(cart, p);
    if Find(cart, p.id).None? {
      assert forall j :: 0 <= j < |cart| ==> r[j] == cart[j] && cart[j].Id() != p.id;
    } else {
      assert forall j :: 0 <= j < |r| ==> r[j].Id() == cart[j].Id();
    }
  }

  /** Adding the same product twice to a cart without it gives one line of quantity 2. */
  lemma AddToCartTwice(cart: seq<CartItem>, p: Product)
    requires !HasId(cart, p.id)
    ensures AddToCart(AddToCart(cart, p), p) == cart + [CartItem(p, 2)]
    ensures TotalPrice(AddToCart(AddToCart(cart, p), p)) == TotalPrice(cart) + 2 * p.price
    ensures CartCount(AddToCart(AddToCart(cart, p), p)) == CartCount(cart) + 2
  {
    var once := AddToCart(cart, p);
    assert once == cart + [CartItem(p, 1)];
    var twice := AddToCart(once, p);
    assert Bumped(once, p.id) == cart + [CartItem(p, 2)] by {
      assert once[|cart|].Id() == p.id;
      forall j | 0 <= j < |cart| ensures once[j].Id() != p.id {
      }
    }
    assert twice == cart + [CartItem(p, 2)] by {
      assert Find(once, p.id).Some? by { assert once[|cart|].Id() == p.id; }
    }
    TotalsAppend(cart, [CartItem(p, 2)]);
    TotalsSingle(CartItem(p, 2));
  }

  // ---------------------------------------------------------------------------
  // removeFromCart
  // ---------------------------------------------------------------------------

  /** removeFromCart of an id no line has is a no-op. */
  lemma {:induction false} RemoveAbsent(cart: seq<CartItem>, id: int)
    requires !HasId(cart, id)
    ensures RemoveFromCart(cart, id) == cart
  {
    if cart != [] {
      assert cart[0].Id() != id;
      assert !HasId(cart[1..], id) by {
        forall j | 0 <= j < |cart[1..]| ensures cart[1..][j].Id() != id {
          assert cart[1..][j] == cart[j + 1];
        }
      }
      RemoveAbsent(cart[1..], id);
      assert cart == [cart[0]] + cart[1..];
    }
  }

  /** Applying removeFromCart twice is the same as applying it once. */
  lemma RemoveIdempotent(cart: seq<CartItem>, id: int)
    ensures RemoveFromCart(RemoveFromCart(cart, id), id) == RemoveFromCart(cart, id)
  {
    RemoveAbsent(RemoveFromCart(cart, id), id);
  }

  /**
   * With unique ids, removing the line at position `k` leaves exactly the
   * lines before and after it, in their order.
   */
  lemma {:induction false} RemoveAt(cart: seq<CartItem>, k: nat)
    requires UniqueIds(cart)
    requires k < |cart|
    ensures RemoveFromCart(cart, cart[k].Id()) == cart[..k] + cart[k + 1..]
  {
    var id := cart[k].Id();
    var tail := cart[1..];
    assert UniqueIds(tail) by {
      forall i, j | 0 <= i < |tail| && 0 <= j < |tail| && tail[i].Id() == tail[j].Id() ensures i == j {
        assert tail[i] == cart[i + 1] && tail[j] == cart[j + 1];
      }
    }
    if k == 0 {
      assert !HasId(tail, id) by {
        forall j | 0 <= j < |tail| ensures tail[j].Id() != id {
          assert tail[j] == cart[j + 1];
        }
      }
      RemoveAbsent(tail, id);
    } else {
      assert cart[0].Id() != id;
      assert tail[k - 1] == cart[k];
      RemoveAt(tail, k - 1);
      assert cart[..k] == [cart[0]] + tail[..k - 1];
      assert cart[k + 1..] == tail[k..];
    }
  }

  /** removeFromCart keeps ids unique. */
  lemma RemoveUnique(cart: seq<CartItem>, id: int)
    requires UniqueIds(cart)
    ensures UniqueIds(RemoveFromCart(cart, id))
  {
    match Find(cart, id)
    case None =>
      RemoveAbsent(cart, id);
    case Some(k) =>
      RemoveAt(cart, k);
      var r := cart[..k] + cart[k + 1..];
      forall i, j | 0 <= i < |r| && 0 <= j < |r| && r[i].Id() == r[j].Id() ensures i == j {
        var i' := if i < k then i else i + 1;
        var j' := if j < k then j else j + 1;
        assert r[i] == cart[i'] && r[j] == cart[j'];
      }
  }

  /** With unique ids, removing a line lowers the totals by exactly that line's share. */
  lemma RemoveTotals(cart: seq<CartItem>, k: nat)
    requires UniqueIds(cart)
    requires k < |cart|
    ensures TotalPrice(RemoveFromCart(cart, cart[k].Id())) == TotalPrice(cart) - cart[k].Subtotal()
    ensures CartCount(RemoveFromCart(cart, cart[k].Id())) == CartCount(cart) - cart[k].quantity
  {
    RemoveAt(cart, k);
    TotalsDrop(cart, k);
  }

  // ---------------------------------------------------------------------------
  // updateQuantity
  // ---------------------------------------------------------------------------

  /** updateQuantity(id, 0) is removeFromCart(id). */
  lemma UpdateQuantityZero(cart: seq<CartItem>, id: int)
    ensures UpdateQuantity(cart, id, 0) == RemoveFromCart(cart, id)
  {
  }

  /**
   * With unique ids and `q != 0`, updateQuantity changes only the quantity of
   * the line with that id, to `q`; length, order and every other field stay.
   */
  lemma UpdateQuantityAt(cart: seq<CartItem>, k: nat, q: int)
    requires UniqueIds(cart)
    requires k < |cart|
    requires q != 0
    ensures UpdateQuantity(cart, cart[k].Id(), q) == cart[k := cart[k].(quantity := q)]
  {
    var r := UpdateQuantity(cart, cart[k].Id(), q);
    var s := cart[k := cart[k].(quantity := q)];
    assert |r| == |s|;
    forall j | 0 <= j < |r| ensures r[j] == s[j] {
      if j != k {
        assert cart[j].Id() != cart[k].Id();
      }
    }
  }

  /** updateQuantity of an id no line has is a no-op, whatever the quantity. */
  lemma UpdateQuantityAbsent(cart: seq<CartItem>, id: int, q: int)
    requires !HasId(cart, id)
    ensures UpdateQuantity(cart, id, q) == cart
  {
    if q == 0 {
      RemoveAbsent(cart, id);
    } else {
      var r := WithQuantity(cart, id, q);
      forall j | 0 <= j < |cart| ensures r[j] == cart[j] {
        assert cart[j].Id() != id;
      }
    }
  }

  /** updateQuantity keeps ids unique. */
  lemma UpdateQuantityUnique(cart: seq<CartItem>, id: int, q: int)
    requires UniqueIds(cart)
    ensures UniqueIds(UpdateQuantity(cart, id, q))
  {
    if q == 0 {
      RemoveUnique(cart, id);
    } else {
      var r := WithQuantity(cart, id, q);
      assert forall j :: 0 <= j < |r| ==> r[j].Id() == cart[j].Id();
    }
  }

  /** With unique ids, setting a line's quantity to `q` moves cartCount by `q` minus its old quantity. */
  lemma UpdateQuantityTotals(cart: seq<CartItem>, k: nat, q: int)
    requires UniqueIds(cart)
    requires k < |cart|
    ensures CartCount(UpdateQuantity(cart, cart[k].Id(), q)) == CartCount(cart) - cart[k].quantity + q
    ensures TotalPrice(UpdateQuantity(cart, cart[k].Id(), q)) ==
      TotalPrice(cart) - cart[k].Subtotal() + cart[k].product.price * q
  {
    if q == 0 {
      RemoveTotals(cart, k);
    } else {
      UpdateQuantityAt(cart, k, q);
      TotalsReplace(cart, k, cart[k].(quantity := q));
    }
  }

  // ---------------------------------------------------------------------------
  // A worked session
  // ---------------------------------------------------------------------------

  /**
   * A 900-unit product with id 1, added once and then set to quantity 3,
   * leaves one line of quantity 3 with itemCount 3 and totalPrice 2700.
   */
  lemma AddThenSetQuantity(brie: Product)
    requires brie.id == 1 && brie.price == 900
    ensures UpdateQuantity(AddToCart([], brie), 1, 3) == [CartItem(brie, 3)]
    ensures CartCount(UpdateQuantity(AddToCart([], brie), 1, 3)) == 3
    ensures TotalPrice(UpdateQuantity(AddToCart([], brie), 1, 3)) == 2700
  {
    var once := [CartItem(brie, 1)];
    var thrice := [CartItem(brie, 3)];
    assert AddToCart([], brie) == once by {
      AddToCartNew([], brie);
    }
    assert UpdateQuantity(once, 1, 3) == thrice by {
      UpdateQuantityAt(once, 0, 3);
    }
    TotalsSingle(CartItem(brie, 3));
  }
}
