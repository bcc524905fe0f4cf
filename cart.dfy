/** The cart ledger of the shopping page: adding an item under its availability
    limit (merging with an existing line or appending a new one), removing a
    line by name, the "Max Reached" guard of the add button, and the `||`
    fallback that picks the amount the button passes. */
module Cart {
  import opened Wrappers
  import opened Records

  /** What `addToCart` does: the new cart, or the refusal the page reports with
      an alert naming the available amount. */
  datatype AddOutcome = Accepted(cart: seq<Item>) | CapacityExceeded(available: int)

  /** The amount already held for `name`: that of the first line so called, or 0. */
  function Holding(cart: seq<Item>, name: string): (r: int)
    ensures !Has(cart, name) ==> r == 0
    ensures Has(cart, name) ==> exists k :: 0 <= k < |cart| && cart[k].name == name && r == cart[k].amount && forall j :: 0 <= j < k ==> cart[j].name != name
  {
    match Find(cart, name)
    case Some(line) => line.amount
    case None => 0
  }

  /** `addToCart(item, amount)`: the desired amount is what the first line for
      the item holds plus `amount`; more than `item.amount` is refused, otherwise
      an existing line is bumped by `amount` or a new line is appended. */
  function AddToCart(cart: seq<Item>, item: Item, amount: int): (r: AddOutcome)
    ensures r.CapacityExceeded? <==> Holding(cart, item.name) + amount > item.amount
    ensures r.CapacityExceeded? ==> r.available == item.amount
    ensures r.Accepted? && !Has(cart, item.name) ==> r.cart == cart + [Item(item.name, amount)]
    ensures r.Accepted? && Has(cart, item.name) ==> r.cart == Bump(cart, item.name, amount)
  {
    var existing := Find(cart, item.name);
    var desired := if existing.Some? then existing.value.amount + amount else amount;
    if desired > item.amount then CapacityExceeded(item.amount)
    else if existing.Some? then Accepted(Bump(cart, item.name, amount))
    else Accepted(cart + [Item(item.name, amount)])
  }

  /** `removeFromCart(name)`: drop every line called `name`; a name that is not
      in the cart leaves it untouched. */
  function RemoveFromCart(cart: seq<Item>, name: string): (r: seq<Item>)
    ensures !Has(cart, name) ==> r == cart
    ensures !Has(r, name)
    ensures forall x :: x in r <==> x in cart && x.name != name
  {
    if Find(cart, name).Some? then Without(cart, name)
    else cart
  }

  /** The "Max Reached" state of an item's add button: the cart already holds a
      line for it whose amount is at least what is available. */
  function AddButtonDisabled(cart: seq<Item>, item: Item): (r: bool)
    ensures r <==> Has(cart, item.name) && Holding(cart, item.name) >= item.amount
  {
    match Find(cart, item.name)
    case Some(line) => line.amount >= item.amount
    case None => false
  }

  /** JavaScript's `input || fallback` on a parsed number: a missing or
      unparsable input (`undefined`, `NaN`) and 0 are falsy and give the fallback. */
  function OrDefault(input: Option<int>, fallback: int): (r: int)
    ensures input.Some? && input.value != 0 ==> r == input.value
    ensures input.None? || input.value == 0 ==> r == fallback
  {
    match input
    case Some(n) => if n != 0 then n else fallback
    case None => fallback
  }

  /** An accepted add onto an existing line keeps the cart's length and order:
      every line keeps its name, the item's lines gain `amount`, the others are
      untouched. */
  lemma AddMergesExisting(cart: seq<Item>, item: Item, amount: int)
    requires Has(cart, item.name)
    requires Holding(cart, item.name) + amount <= item.amount
    ensures AddToCart(cart, item, amount).Accepted?
    ensures var r := AddToCart(cart, item, amount).cart;
      && |r| == |cart|
      && (forall i :: 0 <= i < |cart| ==> r[i].name == cart[i].name)
      && (forall i :: 0 <= i < |cart| && cart[i].name != item.name ==> r[i] == cart[i])
      && (forall i :: 0 <= i < |cart| && cart[i].name == item.name ==> r[i].amount == cart[i].amount + amount)
  {
  }

  /** An accepted add of an item with no line appends `(item.name, amount)` at
      the end and keeps every earlier line. */
  lemma AddAppendsNew(cart: seq<Item>, item: Item, amount: int)
    requires !Has(cart, item.name)
    requires amount <= item.amount
    ensures AddToCart(cart, item, amount) == Accepted(cart + [Item(item.name, amount)])
  {
  }

  /** An accepted add keeps the names in the cart unique. */
  lemma AddKeepsUnique(cart: seq<Item>, item: Item, amount: int)
    requires UniqueNames(cart)
    requires AddToCart(cart, item, amount).Accepted?
    ensures UniqueNames(AddToCart(cart, item, amount).cart)
  {
    var r := AddToCart(cart, item, amount).cart;
    if !Has(cart, item.name) {
      forall i, j | 0 <= i < j < |r| ensures r[i].name != r[j].name {
        if j == |cart| {
          assert r[i] == cart[i];
        } else {
          assert r[i] == cart[i] && r[j] == cart[j];
        }
      }
    }
  }

  /** After an accepted add, the item's first line holds exactly the desired
      amount, so it never exceeds the availability the add was checked against. */
  lemma HoldingAfterAdd(cart: seq<Item>, item: Item, amount: int)
    requires AddToCart(cart, item, amount).Accepted?
    ensures Holding(AddToCart(cart, item, amount).cart, item.name) == Holding(cart, item.name) + amount
    ensures Holding(AddToCart(cart, item, amount).cart, item.name) <= item.amount
  {
    var r := AddToCart(cart, item, amount).cart;
    if Has(cart, item.name) {
      FirstIndexDependsOnNamesOnly(r, cart, item.name);
    } else {
      FirstIndexAppend(cart, Item(item.name, amount));
    }
  }

  /** The limit is inclusive: a desired amount equal to the availability is
      accepted, and one more unit after it is refused. */
  lemma AddAtCapacityBoundary(cart: seq<Item>, item: Item, amount: int)
    requires Holding(cart, item.name) + amount == item.amount
    ensures AddToCart(cart, item, amount).Accepted?
    ensures AddToCart(AddToCart(cart, item, amount).cart, item, 1) == CapacityExceeded(item.amount)
  {
    HoldingAfterAdd(cart, item, amount);
  }

  /** While the button shows "Max Reached", any add of at least one unit of that
      item is refused. */
  lemma DisabledButtonMeansRejected(cart: seq<Item>, item: Item, amount: int)
    requires AddButtonDisabled(cart, item)
    requires amount >= 1
    ensures AddToCart(cart, item, amount) == CapacityExceeded(item.amount)
  {
  }

  /** While the button is enabled, adding one unit (the default amount) of an
      item with some availability is accepted. */
  lemma EnabledButtonAcceptsOne(cart: seq<Item>, item: Item)
    requires !AddButtonDisabled(cart, item)
    requires item.amount >= 1
    ensures AddToCart(cart, item, 1).Accepted?
  {
  }

  /** Every amount the add button passes is non-zero, so an accepted add always
      changes the cart. */
  lemma {:induction false} DefaultAmountAddChangesCart(cart: seq<Item>, item: Item, input: Option<int>)
    requires AddToCart(cart, item, OrDefault(input, 1)).Accepted?
    ensures AddToCart(cart, item, OrDefault(input, 1)).cart != cart
  {
    var amount := OrDefault(input, 1);
    var r := AddToCart(cart, item, amount).cart;
    if Has(cart, item.name) {
      var k := FirstIndex(cart, item.name).value;
      assert r[k].amount == cart[k].amount + amount;
    } else {
      assert |r| == |cart| + 1;
    }
  }

  /** The guard in `removeFromCart` only saves work: the result is the filter. */
  lemma RemoveIsFilter(cart: seq<Item>, name: string)
    ensures RemoveFromCart(cart, name) == Without(cart, name)
  {
    if !Has(cart, name) {
      WithoutAbsent(cart, name);
    }
  }

  /** Removing twice is the same as removing once. */
  lemma RemoveIdempotent(cart: seq<Item>, name: string)
    ensures RemoveFromCart(RemoveFromCart(cart, name), name) == RemoveFromCart(cart, name)
  {
  }

  /** Removal keeps the other lines in their relative order. */
  lemma RemoveKeepsOrder(front: seq<Item>, back: seq<Item>, name: string)
    ensures RemoveFromCart(front + back, name) == RemoveFromCart(front, name) + RemoveFromCart(back, name)
  {
    RemoveIsFilter(front + back, name);
    RemoveIsFilter(front, name);
    RemoveIsFilter(back, name);
    WithoutConcat(front, back, name);
  }

  /** Removal keeps the names in the cart unique. */
  lemma RemoveKeepsUnique(cart: seq<Item>, name: string)
    requires UniqueNames(cart)
    ensures UniqueNames(RemoveFromCart(cart, name))
  {
    WithoutKeepsUnique(cart, name);
  }

  /** Round trip: an accepted add of an item with no line, followed by removing
      that item, gives back the cart as it was. */
  lemma AddThenRemoveRestores(cart: seq<Item>, item: Item, amount: int)
    requires !Has(cart, item.name)
    requires AddToCart(cart, item, amount).Accepted?
    ensures RemoveFromCart(AddToCart(cart, item, amount).cart, item.name) == cart
  {
    var added := Item(item.name, amount);
    RemoveIsFilter(cart + [added], item.name);
    WithoutConcat(cart, [added], item.name);
    WithoutAbsent(cart, item.name);
  }

  /** Removing an item after any accepted add is the same as removing it
      without the add: when a line already existed, the round trip drops it. */
  lemma RemoveAfterAdd(cart: seq<Item>, item: Item, amount: int)
    requires AddToCart(cart, item, amount).Accepted?
    ensures RemoveFromCart(AddToCart(cart, item, amount).cart, item.name) == RemoveFromCart(cart, item.name)
  {
    if Has(cart, item.name) {
      var r := AddToCart(cart, item, amount).cart;
      RemoveIsFilter(r, item.name);
      RemoveIsFilter(cart, item.name);
      WithoutBump(cart, item.name, amount);
    } else {
      AddThenRemoveRestores(cart, item, amount);
    }
  }

  /** With 5 apples available: adding 3 gives the line (apple, 3), a second 3
      is refused and leaves it; adding 5 at once is accepted and one more is not. */
  lemma AppleScenario()
    ensures var apple := Item("apple", 5);
      && AddToCart([], apple, 3) == Accepted([Item("apple", 3)])
      && AddToCart([Item("apple", 3)], apple, 3) == CapacityExceeded(5)
      && AddToCart([], apple, 5) == Accepted([Item("apple", 5)])
      && AddToCart([Item("apple", 5)], apple, 1) == CapacityExceeded(5)
  {
    assert FirstIndex([Item("apple", 3)], "apple") == Some(0);
    assert FirstIndex([Item("apple", 5)], "apple") == Some(0);
  }
}
