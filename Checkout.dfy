/** The cart state of the page and the checkout: the global `cart`
    changed in place by the cart buttons, and `submitOrder`, which turns
    a non-empty cart into an order appended to the stored orders and then
    clears the cart. */
module Checkout {
  import opened Seqs
  import opened Strings
  import opened Catalog
  import opened Cart

  /** The checkout form's fields as typed. */
  datatype OrderForm = OrderForm(name: string, phone: string, address: string, paymentMethod: string, transactionId: string)

  datatype Order = Order(
    id: string, name: string, phone: string, address: string, paymentMethod: string, trx: string,
    items: seq<CartItem>, subtotal: int, delivery: int, total: int, createdAt: string)

  /** What the orders key of local storage holds: nothing, a list of orders,
      valid JSON that is not a list (an object, a number, `null`, ...), or
      text that does not parse. */
  datatype StoredOrders = NoOrders | OrdersBlob(orders: seq<Order>) | NotAList | Unreadable

  /** `JSON.parse(localStorage.getItem(key) || '[]')`, with `[]` when parsing throws. */
  function ReadOrders(stored: StoredOrders): seq<Order> {
    match stored
    case OrdersBlob(orders) => orders
    case _ => []
  }

  /** Whether `orders.push(order)` succeeds on what was read: it throws a
      `TypeError` unless the parsed value is an array. */
  predicate CanAppend(stored: StoredOrders) {
    !stored.NotAList?
  }

  /** `'ORD' + Date.now()`. */
  function OrderId(timestamp: nat): string {
    "ORD" + NatToString(timestamp)
  }

  /** The order record `submitOrder` builds from the cart and the form. */
  function NewOrder(items: seq<CartItem>, form: OrderForm, timestamp: nat, createdAt: string): Order {
    Order(OrderId(timestamp), Trim(form.name), Trim(form.phone), Trim(form.address), form.paymentMethod,
          Trim(form.transactionId), items, Subtotal(items), DeliveryCharge, Subtotal(items) + DeliveryCharge, createdAt)
  }

  /** An order records the cart as its items, and its total is the subtotal plus the delivery charge. */
  lemma NewOrderSpec(items: seq<CartItem>, form: OrderForm, timestamp: nat, createdAt: string)
    ensures var o := NewOrder(items, form, timestamp, createdAt);
      && o.items == items && o.subtotal == Subtotal(items)
      && o.delivery == DeliveryCharge && o.total == o.subtotal + DeliveryCharge && o.total == Total(items)
      && DigitsValue(o.id[3..]) == timestamp
  {
    var id := OrderId(timestamp);
    assert id[3..] == NatToString(timestamp);
    NatToStringRoundTrip(timestamp);
  }

  /** Orders stamped at different times get different ids. */
  lemma OrderIdsDiffer(t1: nat, t2: nat)
    requires t1 != t2
    ensures OrderId(t1) != OrderId(t2)
  {
    assert OrderId(t1)[3..] == NatToString(t1);
    assert OrderId(t2)[3..] == NatToString(t2);
    NatToStringRoundTrip(t1);
    NatToStringRoundTrip(t2);
  }

  class Shop {
    var cart: seq<CartItem>
    var orders: StoredOrders

    ghost predicate Valid()
      reads this
    {
      Cart.Valid(cart)
    }

    /** An empty cart, with whatever the orders key of local storage holds. */
    constructor (stored: StoredOrders)
      ensures Valid() && cart == [] && orders == stored
    {
      cart := [];
      orders := stored;
    }

    /** `addToCart(id)`: one more of a catalogue product. */
    method AddToCart(catalog: seq<Product>, id: int)
      requires Valid()
      modifies this`cart
      ensures Valid()
      ensures cart == CartAfterAdd(old(cart), catalog, id)
    {
      var p := FindProduct(catalog, id);
      if p.None? {
        return;
      }
      var found := FindIndex(cart, id);
      if found.Some? {
        var k := found.value;
        cart := cart[k := cart[k].(qty := cart[k].qty + 1)];
      } else {
        cart := cart + [NewLine(p.value)];
      }
      AddEffects(old(cart), catalog, id);
    }

    /** `changeQty(id, delta)`. */
    method ChangeQty(id: int, delta: int)
      requires Valid()
      modifies this`cart
      ensures Valid()
      ensures cart == CartAfterChange(old(cart), id, delta)
    {
      var found := FindIndex(cart, id);
      if found.None? {
        return;
      }
      var k := found.value;
      cart := cart[k := cart[k].(qty := cart[k].qty + delta)];
      if cart[k].qty <= 0 {
        RemoveFromCart(id);
      }
      ChangeEffects(old(cart), id, delta);
    }

    /** `removeFromCart(id)`. */
    method RemoveFromCart(id: int)
      modifies this`cart
      ensures cart == CartAfterRemove(old(cart), id)
      ensures old(Valid()) ==> Valid()
    {
      if Valid() {
        RemoveEffects(cart, id);
      }
      cart := Filter(HasOtherId(id), cart);
    }

    /** `updateTotals`: the subtotal, the delivery charge and the total shown under the cart. */
    method Totals() returns (subtotal: int, delivery: int, total: int)
      requires Valid()
      ensures subtotal == Subtotal(cart) && delivery == DeliveryCharge && total == subtotal + delivery
      ensures cart == [] ==> total == DeliveryCharge
    {
      subtotal := Subtotal(cart);
      delivery := DeliveryCharge;
      total := subtotal + DeliveryCharge;
    }

    /** `submitOrder`: nothing happens on an empty cart; otherwise the order
        is appended to the stored orders and the cart is emptied. When the
        stored value is not a list, `orders.push` throws before anything is
        saved, and the cart is kept. */
    method SubmitOrder(form: OrderForm, timestamp: nat, createdAt: string) returns (placed: bool)
      requires Valid()
      modifies this
      ensures Valid()
      ensures placed <==> old(cart) != [] && CanAppend(old(orders))
      ensures !placed ==> cart == old(cart) && orders == old(orders)
      ensures placed ==> cart == [] && orders == OrdersBlob(ReadOrders(old(orders)) + [NewOrder(old(cart), form, timestamp, createdAt)])
    {
      if |cart| == 0 {
        return false;
      }
      var order := NewOrder(cart, form, timestamp, createdAt);
      if !CanAppend(orders) {
        return false;
      }
      var list := ReadOrders(orders);
      list := list + [order];
      orders := OrdersBlob(list);
      cart := [];
      placed := true;
    }
  }
}
