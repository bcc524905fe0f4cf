# Shopping list: cart ledger and catalog list

A model of the state logic of the shopping-list page `pages/index.js`
(a React component). The page keeps four pieces of state: `items` (its copy of
the remote catalog), `cart` (the user's selections), and the name and amount
typed into the create-item form. Both lists hold `{ name, amount }` records.

- **Cart ledger.** `addToCart(item, amount)` looks up the first cart line with
  the item's name and computes the desired amount (that line's amount plus
  `amount`, or `amount` alone). If the desired amount is greater than
  `item.amount`, the add is refused and the cart is left as it was. Otherwise
  every line with that name is bumped by `amount`, or a new line is appended.
  `removeFromCart(name)` filters out every line with that name and does
  nothing when there is none. The "Max Reached" guard disables an item's add
  button when its line already holds at least the available amount.
- **Catalog list.** Creating an item with an empty form name does nothing.
  Otherwise the page posts `{ name, amount }`; on success it appends the
  record the service returns and resets the form to `""` and `1`. A successful
  delete filters the name out of `items` and leaves the cart alone.

Layout:

- `wrappers.dfy` (module `Wrappers`): `Option`, and `Reply`, the success (with
  response body) or failure of a call to the catalog service.
- `records.dfy` (module `Records`): the `Item` record and the three array
  operations the page uses, as recursive functions: `find` (`Find`, through
  `FirstIndex`), the bumping `map` (`Bump`) and the `filter` (`Without`), with
  lemmas about them.
- `cart.dfy` (module `Cart`): `addToCart`, `removeFromCart`, the disabled
  rule and the `x || fallback` amount, as functions over the cart, and the
  ledger's properties as lemmas.
- `app.dfy` (module `App`): class `ShoppingApp`, whose fields are the page's
  four state variables and whose methods replace them as the page's setters
  do. Each method's `modifies` clause names exactly the fields it sets.

The service calls are parameters: `AddItem` takes the service's `Reply` and
returns the record it would send, and `DeleteItem` takes whether the delete
succeeded.

The cart round trip holds only for a new line. Adding an item and then
removing it restores the cart only when the cart had no line for that item
before (`Cart.AddThenRemoveRestores`). If a line existed, the code's remove
drops the whole line, including what was there before the add. The general
statement that holds is `Cart.RemoveAfterAdd`: removing after an add equals
removing without it. The code also never checks that an amount is at least 1,
so the model allows any integer amount.

## Model

| member | source | states |
|---|---|---|
| Records.FirstIndex | pages/index.js:41 | the first index whose line has the name; none exactly when no line has it; every earlier line has another name |
| Records.Find | pages/index.js:41 | a line is found exactly when some line has the name; the found line has that name and every line before it has another name |
| Records.Bump | pages/index.js:51-53 | same length and names; lines with the name gain the amount; every other line is unchanged |
| Records.Without | pages/index.js:63 | a record is kept exactly when it is in the list and has another name; the result is no longer than the input |
| Records.WithoutAbsent | pages/index.js:63 | filtering out a name that no record has returns the list unchanged |
| Records.WithoutConcat | pages/index.js:105 | filtering distributes over concatenation, so the kept records stay in their original order |
| Records.WithoutIdempotent | pages/index.js:105 | filtering the same name out twice gives the same list as once |
| Records.WithoutKeepsUnique | pages/index.js:63 | if names were unique before filtering, they are unique after |
| Records.WithoutBump | pages/index.js:51-63 | bumping a name and then filtering it out equals filtering it out directly |
| Records.FirstIndexDependsOnNamesOnly | pages/index.js:41 | two lists with the same names at every position find a name at the same index |
| Records.FirstIndexAppend | pages/index.js:55 | a name absent from the list is found at the appended last position |
| Cart.Holding | pages/index.js:41-43 | 0 when no line has the name, otherwise the amount of the first line with the name |
| Cart.AddToCart | pages/index.js:40-57 | refused exactly when (first line's amount, or 0) + amount > availability; a refusal reports the available amount; accepted with no line appends (name, amount), accepted with a line bumps every line of that name |
| Cart.RemoveFromCart | pages/index.js:60-66 | an absent name leaves the cart unchanged; afterwards no line has the name; a line is kept exactly when it had another name |
| Cart.AddButtonDisabled | pages/index.js:116-117 | disabled exactly when a line has the item's name and the first such line holds at least the availability |
| Cart.OrDefault | pages/index.js:133 | a missing, unparsable or zero input gives the fallback; any other input is used as is |
| Cart.AddMergesExisting | pages/index.js:50-53 | an accepted add onto an existing line keeps length and names; lines with that name gain the amount; others are untouched |
| Cart.AddAppendsNew | pages/index.js:54-55 | an add of a new name within availability appends (name, amount) after the unchanged old lines |
| Cart.AddKeepsUnique | pages/index.js:50-55 | an accepted add keeps cart names unique |
| Cart.HoldingAfterAdd | pages/index.js:41-55 | after an accepted add, the item's first line holds old + amount, which is at most the availability |
| Cart.AddAtCapacityBoundary | pages/index.js:45 | a desired amount equal to the availability is accepted, and one more unit afterwards is refused |
| Cart.DisabledButtonMeansRejected | pages/index.js:116-117 | while the button shows "Max Reached", any add of at least one unit is refused |
| Cart.EnabledButtonAcceptsOne | pages/index.js:116-117 | while the button is enabled and availability is at least 1, adding one unit is accepted |
| Cart.DefaultAmountAddChangesCart | pages/index.js:133 | an accepted add with the button's fallback amount always changes the cart |
| Cart.RemoveIsFilter | pages/index.js:60-66 | the guarded remove equals the plain filter |
| Cart.RemoveIdempotent | pages/index.js:63 | removing a name twice equals removing it once |
| Cart.RemoveKeepsOrder | pages/index.js:63 | removal distributes over concatenation, so the other lines keep their relative order |
| Cart.RemoveKeepsUnique | pages/index.js:63 | removal keeps cart names unique |
| Cart.AddThenRemoveRestores | pages/index.js:54-63 | an accepted add of a name with no line, followed by its removal, restores the original cart |
| Cart.RemoveAfterAdd | pages/index.js:50-63 | removing a name after any accepted add of it equals removing it without the add |
| Cart.AppleScenario | pages/index.js:40-57 | with 5 apples: add 3 gives (apple, 3), another 3 is refused; add 5 is accepted, then 1 more is refused |
| App.ShoppingApp.constructor | pages/index.js:8-11 | starts with empty items and cart, an empty form name and form amount 1 |
| App.ShoppingApp.AddToCart | pages/index.js:40-57 | accepted exactly under the capacity rule; refused leaves the cart unchanged; accepted sets the ledger's new cart, within availability, with names still unique |
| App.ShoppingApp.RemoveFromCart | pages/index.js:60-66 | the cart becomes the filtered cart and names stay unique; nothing else changes |
| App.ShoppingApp.SetSelectedItemName | pages/index.js:195 | sets only the form name |
| App.ShoppingApp.SetSelectedItemAmount | pages/index.js:202 | sets only the form amount |
| App.ShoppingApp.AddItem | pages/index.js:69-81 | an empty name sends nothing and changes nothing; on success the returned record is appended and the form reset to "" and 1; on failure nothing changes; the cart is never touched |
| App.ShoppingApp.DeleteItem | pages/index.js:102-109 | on success every item with the name leaves the catalog and the rest keep their order; on failure nothing changes; the cart is never touched |

## Left out

- The HTTP calls (`axios` get, post, put and delete), the endpoint URL from the environment, and error logging. A call appears only as its outcome: `Reply` for the create, a boolean for the delete.
- The initial fetch of all items on first render (`useEffect`). It is lifecycle code that replaces `items` wholesale on success.
- `updateItem`: on success it reloads the whole page, which has no local state transition to state. Only its `newAmount || item.amount` fallback is modelled, by `Cart.OrDefault`.
- The `alert` on a refused add. It is a `CapacityExceeded` outcome carrying the available amount.
- Rendering, styling, and the per-item scratch fields `selectedAmount` and `newAmount` written by `parseInt` in input handlers. A parsed input is an `Option<int>`, with `None` standing for `undefined` or `NaN`.
- App.ShoppingApp.SetSelectedItemAmount: does not model that the form stores the raw input text (a string) rather than a number.
- Fields of a catalog item other than name and amount, which the page spreads into a new cart line. Both lists hold plain `(name, amount)` records.
- JavaScript numbers are floating point; amounts are unbounded integers here.
- Interleaving of concurrent in-flight requests: each method runs as one step.
