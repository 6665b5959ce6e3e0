# Cheese-shop storefront: cart engine and content lookup

This project models the state logic of the SOBKO cheese-shop storefront page (`src/pages/Index.tsx`).

**Cart engine.** A cart is an ordered list of lines. Each line is a snapshot of a catalog product taken at its first add, plus a quantity. The page supports these operations:

- `addToCart` raises the quantity of an existing line by one, or appends a new line at quantity 1.
- `removeFromCart` filters lines out by id.
- `updateQuantity` removes the line for quantity 0 and otherwise overwrites the quantity.
- `cartCount` and `totalPrice` are left folds (`reduce`) over the lines.

Every operation builds a new list from the current one. The page then replaces its state wholesale.

**Buttons.** The cart's minus, plus and trash buttons and the catalog's add button are modelled as actions on a line. The model proves that any sequence of button presses keeps two things true:

- at most one line per product id;
- every quantity at least 1.

**Free-shipping reminder.** This is a display rule. The reminder shows when the cart has at least one line and `totalPrice < 2500`. An empty cart renders its "cart is empty" note instead, so it never shows the reminder.

**Content lookup.** The first site-content entry whose section is `"hero"` supplies the hero title and subtitle. The first entry whose section is `"about"` supplies the about text. Each displayed text falls back to fixed copy while its stored value is empty.

Modules:

- `Options`: the optional value of a search.
- `Cart`: products, lines, the three operations, the totals and their lemmas.
- `CartActions`: the buttons and the invariant they keep.
- `Shipping`: the reminder rule.
- `Content`: the hero/about lookup and the fallback copy.
- `IndexPage`: a `Storefront` class whose `cart` and `page` fields are reassigned by the handlers, as `setCart`, `setHeroContent` and `setAboutContent` do.

Prices and quantities are unbounded integers. Prices are entered with `parseInt` (`src/pages/Admin.tsx:325`), and the page only ever adds and multiplies whole numbers.

## Model

| member | source | states |
|---|---|---|
| Cart.Find | src/pages/Index.tsx:72 | the search `cart.find` on the id: none exactly when no line has the id; otherwise the position of the first line with that id |
| Cart.Bumped | src/pages/Index.tsx:74-78 | the map of the existing-line branch: same length, same snapshots in the same order; exactly the lines with the id gain one item, no other quantity moves |
| Cart.WithQuantity | src/pages/Index.tsx:96-98 | the map of updateQuantity: same length and snapshots in order; lines with the id get quantity q, every other line is unchanged |
| Cart.AddToCart | src/pages/Index.tsx:71-81 | afterwards the product has a line; the cart grows by one line exactly when the product had none; existing lines keep their ids in order (closed forms in AddToCartExisting and AddToCartNew) |
| Cart.UpdateQuantity | src/pages/Index.tsx:92-100 | quantity 0 leaves no line with the id; any other q keeps length and snapshots and sets exactly the matching lines to q; lines of other ids all survive (closed forms in UpdateQuantityAt and UpdateQuantityZero) |
| Cart.TotalPrice | src/pages/Index.tsx:102 | the left fold of price × quantity from 0; non-negative when every line's subtotal is (its algebra in TotalsAppend, TotalsSplit, TotalsReplace, TotalsDrop) |
| Cart.CartCount | src/pages/Index.tsx:103 | the left fold of the quantities from 0; at least the number of lines when every quantity is at least 1 |
| Cart.RemoveFromCart | src/pages/Index.tsx:88-90 | a line is in the result exactly when it is in the cart and its id differs; no line with the id remains; the result is never longer |
| Cart.TotalsAppend | src/pages/Index.tsx:102-103 | totalPrice (sum of price × quantity) and cartCount (sum of quantities) are additive over concatenation of carts |
| Cart.TotalsSplit | src/pages/Index.tsx:102-103 | each total is the total before line k, plus line k's share, plus the total after it |
| Cart.TotalsReplace | src/pages/Index.tsx:102-103 | replacing one line moves each total by exactly the difference between the new and old line |
| Cart.TotalsDrop | src/pages/Index.tsx:102-103 | dropping one line lowers each total by exactly that line's share |
| Cart.AddToCartExisting | src/pages/Index.tsx:72-78 | with unique ids and a line for the product at position k, addToCart raises that line's quantity by exactly 1; length, order, the line's snapshot and every other line are unchanged |
| Cart.AddToCartNew | src/pages/Index.tsx:79-80 | with no line for the product, addToCart appends exactly one line `{product, quantity 1}` at the end and leaves the existing lines as they were |
| Cart.AddToCartTotals | src/pages/Index.tsx:71-103 | with unique ids, addToCart raises cartCount by 1 and totalPrice by the unit price of the bumped line's own snapshot, or by the product's price for a new line |
| Cart.BumpTotals | src/pages/Index.tsx:76-103 | raising one line by one item raises cartCount by 1 and totalPrice by that line's own unit price |
| Cart.AddToCartPrice | src/pages/Index.tsx:71-103 | when the cart's line for the product is a snapshot of that product, addToCart raises totalPrice by exactly the product's price |
| Cart.AddToCartUnique | src/pages/Index.tsx:71-81 | addToCart keeps at most one line per product id |
| Cart.AddToCartTwice | src/pages/Index.tsx:71-81 | adding the same product twice to a cart without it yields one appended line of quantity 2; totalPrice rises by twice the price and cartCount by 2 |
| Cart.RemoveAbsent | src/pages/Index.tsx:89 | removeFromCart of an id that no line carries returns the cart unchanged |
| Cart.RemoveIdempotent | src/pages/Index.tsx:88-90 | removing an id twice equals removing it once |
| Cart.RemoveAt | src/pages/Index.tsx:89 | with unique ids, removing the id of line k leaves exactly the lines before and after it, in their order |
| Cart.RemoveUnique | src/pages/Index.tsx:88-90 | removeFromCart keeps at most one line per product id |
| Cart.RemoveTotals | src/pages/Index.tsx:89-103 | with unique ids, removing line k lowers totalPrice by its price × quantity and cartCount by its quantity |
| Cart.UpdateQuantityZero | src/pages/Index.tsx:92-94 | updateQuantity(id, 0) is removeFromCart(id) |
| Cart.UpdateQuantityAt | src/pages/Index.tsx:95-98 | with unique ids and a non-zero q, updateQuantity sets line k's quantity to q. No other field, no other line, the length and the order change |
| Cart.UpdateQuantityAbsent | src/pages/Index.tsx:92-99 | updateQuantity of an id no line carries is a no-op, for every quantity including 0 |
| Cart.UpdateQuantityUnique | src/pages/Index.tsx:92-99 | updateQuantity keeps at most one line per product id, for every quantity |
| Cart.UpdateQuantityTotals | src/pages/Index.tsx:92-103 | with unique ids, setting line k to q moves cartCount by q minus its old quantity and totalPrice by its price × (q − old quantity), the 0-removes case included |
| Cart.AddThenSetQuantity | src/pages/Index.tsx:71-99 | a product with id 1 and price 900, added once to an empty cart and set to quantity 3, gives a single line of quantity 3, cartCount 3 and totalPrice 2700 |
| CartActions.Apply | src/pages/Index.tsx:204-226 | one press of a line's minus, plus or trash button (or the catalog add button at line 390); the cart grows by at most one line, an added product has a line, a trashed line's id is gone, plus keeps the length on a line of non-negative quantity |
| CartActions.Run | src/pages/Index.tsx:190-226 | a run of presses applied in order; the cart grows by at most one line per press |
| CartActions.DropValid | src/pages/Index.tsx:89 | removing a line from a valid cart keeps it valid |
| CartActions.SetValid | src/pages/Index.tsx:96-98 | setting a line of a valid cart to a positive quantity keeps it valid |
| CartActions.AddValid | src/pages/Index.tsx:71-81 | addToCart keeps a valid cart valid |
| CartActions.ApplyValid | src/pages/Index.tsx:204-226 | every press of add, minus, plus or trash keeps one line per id and every quantity at least 1 |
| CartActions.RunValid | src/pages/Index.tsx:190-226 | any sequence of button presses from a valid cart ends in a valid cart |
| CartActions.MinusAtOne | src/pages/Index.tsx:207 | minus on a line at quantity 1 removes the line. The other lines keep their order, and no line at 0 is left |
| CartActions.MinusAboveOne | src/pages/Index.tsx:207 | minus on a line above 1 lowers only that line by one and cartCount by one |
| CartActions.PlusIsAddAgain | src/pages/Index.tsx:215 | plus raises only its line by one, the same cart as adding that line's product again |
| CartActions.RunDistinctAdds | src/pages/Index.tsx:390 | adding n pairwise-distinct products to an empty cart gives n lines at quantity 1 in the order added, one per product, with cartCount n |
| Shipping.ShowsReminder | src/pages/Index.tsx:185-245 | the reminder shows only for a cart with at least one line, and never at a total at or above 2500 (boundary and empty cases in the lemmas below) |
| Shipping.EmptyCartNoReminder | src/pages/Index.tsx:185-186 | the empty cart shows no reminder |
| Shipping.ReminderBoundary | src/pages/Index.tsx:241 | on a one-line cart the reminder shows at total 2499 and is hidden at 2500 and 2501 |
| Shipping.FirstAddShowsReminder | src/pages/Index.tsx:185-245 | the first add to an empty cart shows the reminder exactly when that product's price is below 2500 |
| Shipping.AddKeepsReminderHidden | src/pages/Index.tsx:241-245 | with non-negative prices, addToCart never lowers totalPrice, so a reminder hidden by a total at or above 2500 stays hidden |
| Shipping.RemoveKeepsReminderShown | src/pages/Index.tsx:273-277 | removing a line with non-negative subtotal never raises totalPrice, so a shown reminder stays shown while some line is left |
| Shipping.TrashLastLineHidesReminder | src/pages/Index.tsx:185-245 | trashing the only line empties the cart and hides the reminder |
| Content.FindSection | src/pages/Index.tsx:61-62 | none exactly when no entry has the section; otherwise an entry with that section that no earlier entry shares |
| Content.LoadContent | src/pages/Index.tsx:56-69 | a failed load keeps the page state; a successful one leaves the hero (and the about text) as it was or copies it from an entry of its own section (which entry: LoadContentHero, LoadContentAbout) |
| Content.LoadContentHero | src/pages/Index.tsx:61-64 | after a successful load, the hero title and subtitle are those of the first "hero" entry |
| Content.LoadContentAbout | src/pages/Index.tsx:62-65 | after a successful load, the about text is that of the first "about" entry |
| Content.LoadContentMissing | src/pages/Index.tsx:64-65 | a list without a "hero" (or "about") entry keeps the previous hero (or about) state |
| Content.OrDefault | src/pages/Index.tsx:344 | the logical-or fallback on strings: the stored text when non-empty, the fixed copy otherwise, and never empty |
| Content.DisplayedTitle | src/pages/Index.tsx:344 | the hero heading is never empty: the stored title, or the default title when none is stored |
| Content.DisplayedSubtitle | src/pages/Index.tsx:347 | the hero tagline is never empty: the stored subtitle, or the default subtitle when none is stored |
| Content.DisplayedAbout | src/pages/Index.tsx:407 | the about text is never empty: the stored text, or the default about text when none is stored |
| Content.InitialShowsDefaults | src/pages/Index.tsx:343-408 | before any content has loaded, the page shows the default hero title, subtitle and about text |
| Content.DisplayedNeverEmpty | src/pages/Index.tsx:343-408 | whatever was loaded, the displayed hero title, subtitle and about text are never empty |
| IndexPage.Storefront.constructor | src/pages/Index.tsx:33-36 | the page mounts with an empty cart and empty stored copy, and that cart is valid |
| IndexPage.Storefront.AddToCart | src/pages/Index.tsx:71-81 | the cart is replaced by addToCart of the old cart; the copy is untouched; unique ids stay unique and cartCount rises by 1 |
| IndexPage.Storefront.RemoveFromCart | src/pages/Index.tsx:88-90 | the cart is replaced by removeFromCart of the old cart; no line with the id remains; unique ids stay unique |
| IndexPage.Storefront.UpdateQuantity | src/pages/Index.tsx:92-100 | the cart is replaced by updateQuantity of the old cart; unique ids stay unique |
| IndexPage.Storefront.Press | src/pages/Index.tsx:204-226 | a button press replaces the cart by that action's result and keeps it valid |
| IndexPage.Storefront.ShowsFreeShippingReminder | src/pages/Index.tsx:185-245 | the page's reminder shows only with lines in the cart and a total below 2500 |
| IndexPage.Storefront.LoadContent | src/pages/Index.tsx:56-69 | the copy is replaced by the lookup's result; a failed fetch changes nothing; the cart is untouched |

## Left out

- The fetch and `response.json()` steps of `loadContent` and all of `loadProducts` are left out, because they are network I/O over untyped JSON. A load is modelled as an already-parsed list, or `None` when the load throws, including a body that is not a list. The `catch` branch keeps the previous state in every such case. `console.error` is not modelled.
- JavaScript's `||` also falls back on `undefined` and `null`, for example an entry without a `title` field. The model's stored fields are always strings, so only the empty string falls back.
- The toast shown by `addToCart` is left out as a presentation side effect.
- JSX rendering, styling, `Snowfall`, the sheet and dialog chrome, and the decorative auth and checkout dialogs are left out: they change no cart state.
- React's batched `useState` updates and the handlers' closure over a possibly stale `cart` are not modelled. Each handler is a function applied to the current cart.
- Numbers are unbounded integers. The page's IEEE doubles, and their rounding for very large or fractional values, are not modelled.
- `cart.find` returns the matching line, but the page only tests whether it exists. `Cart.Find` returns that line's position instead.
- Cart.AddToCartExisting, Cart.AddToCartTotals, Cart.RemoveAt, Cart.UpdateQuantityAt: these assume unique ids, the invariant every operation keeps. Without it, `addToCart` and `updateQuantity` change every line carrying the id. `Cart.AddToCart` and `Cart.UpdateQuantity` model that behaviour as written.
- `updateQuantity` with a negative quantity stores it unvalidated. The model's `Cart.UpdateQuantity` does the same. No button can produce such a value: minus on a line at 1 gives 0, which removes the line. So the quantity ≥ 1 invariant is proved for button presses, not for arbitrary `updateQuantity` calls.
- `src/pages/Admin.tsx` and the three Python backends are not part of this model. They are form chrome, fetch calls and SQL run by Postgres.
