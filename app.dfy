/** The state of the shopping page and the operations that replace it: the
    catalog copy `items`, the `cart`, and the create-item form's name and
    amount. Each method sets the fields the page's setters set and no other. */
module App {
  import opened Wrappers
  import opened Records
  import Cart

  class ShoppingApp {
    var items: seq<Item>
    var cart: seq<Item>
    var selectedItemName: string
    var selectedItemAmount: int

    /** The initial state: no items (until fetched), an empty cart, an empty
        form with amount 1. */
    constructor ()
      ensures items == [] && cart == []
      ensures selectedItemName == "" && selectedItemAmount == 1
    {
      items := [];
      cart := [];
      selectedItemName := "";
      selectedItemAmount := 1;
    }

    /** Add `amount` of `item` to the cart; `accepted` is false when the desired
        amount would exceed `item.amount`, and then the cart is unchanged. */
    method AddToCart(item: Item, amount: int) returns (accepted: bool)
      modifies this`cart
      ensures accepted <==> Cart.Holding(old(cart), item.name) + amount <= item.amount
      ensures !accepted ==> cart == old(cart)
      ensures accepted ==> cart == Cart.AddToCart(old(cart), item, amount).cart
      ensures accepted ==> Cart.Holding(cart, item.name) <= item.amount
      ensures UniqueNames(old(cart)) ==> UniqueNames(cart)
    {
      var outcome := Cart.AddToCart(cart, item, amount);
      match outcome
      case CapacityExceeded(_) =>
        accepted := false;
      case Accepted(next) =>
        Cart.HoldingAfterAdd(cart, item, amount);
        if UniqueNames(cart) {
          Cart.AddKeepsUnique(cart, item, amount);
        }
        cart := next;
        accepted := true;
    }

    /** Remove every cart line called `name`; nothing happens if there is none. */
    method RemoveFromCart(name: string)
      modifies this`cart
      ensures cart == Cart.RemoveFromCart(old(cart), name)
      ensures cart == Without(old(cart), name)
      ensures UniqueNames(old(cart)) ==> UniqueNames(cart)
    {
      Cart.RemoveIsFilter(cart, name);
      if UniqueNames(cart) {
        Cart.RemoveKeepsUnique(cart, name);
      }
      cart := Cart.RemoveFromCart(cart, name);
    }

    /** The create-item form's name field. */
    method SetSelectedItemName(name: string)
      modifies this`selectedItemName
      ensures selectedItemName == name
    {
      selectedItemName := name;
    }

    /** The create-item form's amount field. */
    method SetSelectedItemAmount(amount: int)
      modifies this`selectedItemAmount
      ensures selectedItemAmount == amount
    {
      selectedItemAmount := amount;
    }

    /** Create an item from the form. With an empty name nothing is sent and
        nothing changes. Otherwise `request` is the record sent to the service
        and `reply` its answer: on success the returned record is appended to
        `items` and the form is reset to "" and 1; on failure nothing changes.
        The cart is never touched. */
    method AddItem(reply: Reply<Item>) returns (request: Option<Item>)
      modifies this`items, this`selectedItemName, this`selectedItemAmount
      ensures old(selectedItemName) == "" ==> request == None
      ensures old(selectedItemName) != "" ==> request == Some(Item(old(selectedItemName), old(selectedItemAmount)))
      ensures request.Some? && reply.Success? ==>
        items == old(items) + [reply.data] && selectedItemName == "" && selectedItemAmount == 1
      ensures request.None? || reply.Failure? ==>
        items == old(items) && selectedItemName == old(selectedItemName) && selectedItemAmount == old(selectedItemAmount)
    {
      if selectedItemName == "" {
        return None;
      }
      request := Some(Item(selectedItemName, selectedItemAmount));
      match reply
      case Success(created) =>
        items := items + [created];
        selectedItemName := "";
        selectedItemAmount := 1;
      case Failure =>
    }

    /** Delete the item called `name` on the service; `deleted` says whether the
        request succeeded. On success every item so called leaves `items` and
        the rest keep their order; on failure nothing changes. The cart is never
        touched, so a line for a deleted item stays. */
    method DeleteItem(name: string, deleted: bool)
      modifies this`items
      ensures deleted ==> items == Without(old(items), name) && !Has(items, name)
      ensures !deleted ==> items == old(items)
    {
      if deleted {
        items := Without(items, name);
        assert !Has(items, name) by {
          forall i | 0 <= i < |items| ensures items[i].name != name {
            assert items[i] in items;
          }
        }
      }
    }
  }
}
