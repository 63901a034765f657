/** The shopping cart as values: the list of line items, the effect of
    `addToCart`, `changeQty` and `removeFromCart` on it, and the sums
    `updateTotals` and the cart badge display. */
module Cart {
  import opened Wrappers
  import opened Seqs
  import opened Catalog

  /** `DELIVERY_CHARGE`, added to every order. */
  const DeliveryCharge := 60

  /** One line of the cart: `{id, name, price, qty}`. */
  datatype CartItem = CartItem(id: int, name: string, price: int, qty: int)

  predicate InCart(items: seq<CartItem>, id: int) {
    exists k :: 0 <= k < |items| && items[k].id == id
  }

  /** `cart.find(i => i.id === id)`, as the position of the first match. */
  function FindIndex(items: seq<CartItem>, id: int): (r: Option<nat>)
    ensures r.Some? ==> r.value < |items| && items[r.value].id == id
    ensures r.Some? ==> forall j :: 0 <= j < r.value ==> items[j].id != id
    ensures r.None? <==> !InCart(items, id)
  {
    if items == [] then None
    else if items[0].id == id then Some(0)
    else match FindIndex(items[1..], id)
      case None => None
      case Some(k) => Some(k + 1)
  }

  /** What the cart operations keep true: no id twice, every quantity at least 1. */
  predicate Valid(items: seq<CartItem>) {
    && (forall i, j :: 0 <= i < j < |items| ==> items[i].id != items[j].id)
    && (forall k :: 0 <= k < |items| ==> items[k].qty >= 1)
  }

  /** The line `addToCart` pushes for a product not yet in the cart. */
  function NewLine(p: Product): CartItem {
    CartItem(p.id, p.name, p.price, 1)
  }

  /** `after` is `before` with the quantity of the entry for `id` raised by
      `delta`; every other entry, and the order, stay as they were. */
  predicate Bumped(before: seq<CartItem>, after: seq<CartItem>, id: int, delta: int) {
    |after| == |before|
    && forall k :: 0 <= k < |before| ==>
         after[k] == if before[k].id == id then before[k].(qty := before[k].qty + delta) else before[k]
  }

  /** Raising the quantity at the (only) position holding `id` is a `Bumped` cart. */
  lemma BumpAt(items: seq<CartItem>, k: nat, id: int, delta: int)
    requires Valid(items) && k < |items| && items[k].id == id
    ensures Bumped(items, items[k := items[k].(qty := items[k].qty + delta)], id, delta)
  {
  }

  /** `addToCart(id)` on the cart `items`, with `catalog` the generated products. */
  function CartAfterAdd(items: seq<CartItem>, catalog: seq<Product>, id: int): (r: seq<CartItem>)
    ensures FindProduct(catalog, id).None? ==> r == items
    ensures FindProduct(catalog, id).Some? && !InCart(items, id) ==>
      r == items + [NewLine(FindProduct(catalog, id).value)]
    ensures FindProduct(catalog, id).Some? && InCart(items, id) && Valid(items) ==> Bumped(items, r, id, 1)
  {
    match FindProduct(catalog, id)
    case None => items
    case Some(p) =>
      match FindIndex(items, id)
      case Some(k) => items[k := items[k].(qty := items[k].qty + 1)]
      case None => items + [NewLine(p)]
  }

  /** The filter `x => x.id !== id`. */
  function HasOtherId(id: int): CartItem -> bool {
    (x: CartItem) => x.id != id
  }

  /** No entry the filter keeps carries `id`. */
  lemma FilterDropsId(items: seq<CartItem>, id: int)
    ensures !InCart(Filter(HasOtherId(id), items), id)
  {
    var r := Filter(HasOtherId(id), items);
    FilterMembers(HasOtherId(id), items);
    forall k | 0 <= k < |r| ensures r[k].id != id {
      assert r[k] in r;
    }
  }

  /** `removeFromCart(id)`: the cart without the entries for `id`. */
  function CartAfterRemove(items: seq<CartItem>, id: int): (r: seq<CartItem>)
    ensures !InCart(r, id)
    ensures forall x :: x in r <==> x in items && x.id != id
  {
    FilterMembers(HasOtherId(id), items);
    FilterDropsId(items, id);
    Filter(HasOtherId(id), items)
  }

  /** Removing an id the cart does not hold changes nothing. */
  lemma RemoveAbsent(items: seq<CartItem>, id: int)
    requires !InCart(items, id)
    ensures CartAfterRemove(items, id) == items
  {
    FilterAll(HasOtherId(id), items);
  }

  /** Removal keeps the relative order of the remaining entries. */
  lemma RemoveAppend(a: seq<CartItem>, b: seq<CartItem>, id: int)
    ensures CartAfterRemove(a + b, id) == CartAfterRemove(a, id) + CartAfterRemove(b, id)
  {
    FilterAppend(HasOtherId(id), a, b);
  }

  /** `changeQty(id, delta)`: the entry's quantity moves by `delta`, and the
      entry is removed when that leaves it at 0 or below. */
  function CartAfterChange(items: seq<CartItem>, id: int, delta: int): (r: seq<CartItem>)
    ensures !InCart(items, id) ==> r == items
  {
    match FindIndex(items, id)
    case None => items
    case Some(k) =>
      var it := items[k].(qty := items[k].qty + delta);
      var bumped := items[k := it];
      if it.qty <= 0 then CartAfterRemove(bumped, id) else bumped
  }

  /** The entry for `id`, which must be in the cart. */
  function EntryFor(items: seq<CartItem>, id: int): (e: CartItem)
    requires InCart(items, id)
    ensures e in items && e.id == id
  {
    items[FindIndex(items, id).value]
  }

  /** `changeQty` removes the entry when its new quantity is not positive,
      and otherwise changes only that entry's quantity. */
  lemma ChangeSpec(items: seq<CartItem>, id: int, delta: int)
    requires Valid(items) && InCart(items, id)
    ensures var e := EntryFor(items, id);
      if e.qty + delta <= 0 then CartAfterChange(items, id, delta) == CartAfterRemove(items, id)
      else Bumped(items, CartAfterChange(items, id, delta), id, delta)
  {
    var k := FindIndex(items, id).value;
    var bumped := items[k := items[k].(qty := items[k].qty + delta)];
    BumpAt(items, k, id, delta);
    if items[k].qty + delta <= 0 {
      forall j | 0 <= j < |items| ensures HasOtherId(id)(bumped[j]) == HasOtherId(id)(items[j]) {
      }
      SameFilterOnChanged(items, bumped, id);
    }
  }

  /** Carts that differ only in entries for `id` lose the same entries on removal. */
  lemma SameFilterOnChanged(a: seq<CartItem>, b: seq<CartItem>, id: int)
    requires |a| == |b|
    requires forall j :: 0 <= j < |a| ==> a[j] == b[j] || (a[j].id == id && b[j].id == id)
    ensures CartAfterRemove(a, id) == CartAfterRemove(b, id)
  {
    SameFilterOnChangedFilter(a, b, id);
  }

  lemma {:induction false} SameFilterOnChangedFilter(a: seq<CartItem>, b: seq<CartItem>, id: int)
    requires |a| == |b|
    requires forall j :: 0 <= j < |a| ==> a[j] == b[j] || (a[j].id == id && b[j].id == id)
    ensures Filter(HasOtherId(id), a) == Filter(HasOtherId(id), b)
  {
    if a != [] {
      SameFilterOnChangedFilter(a[1..], b[1..], id);
    }
  }

  /** `cart.reduce((s, i) => s + i.price * i.qty, 0)`. */
  function Subtotal(items: seq<CartItem>): int {
    if items == [] then 0 else items[0].price * items[0].qty + Subtotal(items[1..])
  }

  /** `cart.reduce((s, i) => s + i.qty, 0)`, the number the cart badge shows
      (the `|| 0` there turns only a zero into zero again). */
  function ItemCount(items: seq<CartItem>): int {
    if items == [] then 0 else items[0].qty + ItemCount(items[1..])
  }

  /** The total `updateTotals` shows and an order records. */
  function Total(items: seq<CartItem>): int {
    Subtotal(items) + DeliveryCharge
  }

  /** Both sums add up over a concatenation. */
  lemma {:induction false} SumsAppend(a: seq<CartItem>, b: seq<CartItem>)
    ensures Subtotal(a + b) == Subtotal(a) + Subtotal(b)
    ensures ItemCount(a + b) == ItemCount(a) + ItemCount(b)
  {
    if a == [] {
      assert a + b == b;
    } else {
      assert (a + b)[0] == a[0] && (a + b)[1..] == a[1..] + b;
      SumsAppend(a[1..], b);
    }
  }

  /** Raising one entry's quantity by `delta` moves the count by `delta`
      and the subtotal by `delta` times that entry's price. */
  lemma {:induction false} SumsBumped(before: seq<CartItem>, after: seq<CartItem>, id: int, delta: int)
    requires Valid(before) && InCart(before, id) && Bumped(before, after, id, delta)
    ensures ItemCount(after) == ItemCount(before) + delta
    ensures Subtotal(after) == Subtotal(before) + delta * EntryFor(before, id).price
  {
    var e := EntryFor(before, id);
    if before[0].id == id {
      assert after[1..] == before[1..] by {
        forall j | 0 <= j < |before| - 1 ensures after[1..][j] == before[1..][j] {
          assert before[j + 1].id != before[0].id;
        }
      }
      assert e == before[0];
      assert after[0].price * after[0].qty == before[0].price * before[0].qty + delta * before[0].price;
    } else {
      assert InCart(before[1..], id) by {
        var k := FindIndex(before, id).value;
        assert before[1..][k - 1].id == id;
      }
      assert Bumped(before[1..], after[1..], id, delta);
      SumsBumped(before[1..], after[1..], id, delta);
      assert EntryFor(before[1..], id) == e by {
        var k := FindIndex(before, id).value;
        var k' := FindIndex(before[1..], id).value;
        assert before[k' + 1].id == id;
        assert k' + 1 == k;
      }
    }
  }

  /** The first line lies outside the rest of a valid cart. */
  lemma HeadNotInRest(items: seq<CartItem>)
    requires Valid(items) && items != []
    ensures !InCart(items[1..], items[0].id)
  {
    forall j | 0 <= j < |items| - 1 ensures items[1..][j].id != items[0].id {
      assert items[j + 1].id != items[0].id;
    }
  }

  /** The entry for `id` in a cart whose first line has another id is the rest's entry. */
  lemma EntryInRest(items: seq<CartItem>, id: int)
    requires InCart(items, id) && items[0].id != id
    ensures InCart(items[1..], id) && EntryFor(items[1..], id) == EntryFor(items, id)
  {
    var k := FindIndex(items, id).value;
    assert items[1..][k - 1].id == id;
    var k' := FindIndex(items[1..], id).value;
    assert items[k' + 1].id == id;
  }

  /** Removing the entry for `id` takes its quantity off the count and its line off the subtotal. */
  lemma {:induction false} SumsRemoved(items: seq<CartItem>, id: int)
    requires Valid(items) && InCart(items, id)
    ensures var e := EntryFor(items, id);
      && ItemCount(CartAfterRemove(items, id)) == ItemCount(items) - e.qty
      && Subtotal(CartAfterRemove(items, id)) == Subtotal(items) - e.price * e.qty
  {
    var rest := items[1..];
    var r := CartAfterRemove(items, id);
    assert r == (if items[0].id != id then [items[0]] else []) + CartAfterRemove(rest, id);
    if items[0].id == id {
      HeadNotInRest(items);
      RemoveAbsent(rest, id);
      assert EntryFor(items, id) == items[0];
      assert r == rest;
    } else {
      EntryInRest(items, id);
      SumsRemoved(rest, id);
      assert r == [items[0]] + CartAfterRemove(rest, id);
      assert r[1..] == CartAfterRemove(rest, id);
    }
  }

  /** The count of a valid cart is at least its number of lines, so it is 0 exactly when the cart is empty. */
  lemma {:induction false} CountZeroIffEmpty(items: seq<CartItem>)
    requires Valid(items)
    ensures ItemCount(items) >= |items|
    ensures ItemCount(items) == 0 <==> items == []
  {
    if items != [] {
      CountZeroIffEmpty(items[1..]);
    }
  }

  /** Adding a catalogue product keeps the cart valid, raises the count by
      one and the subtotal by the price on that product's cart line. */
  lemma AddEffects(items: seq<CartItem>, catalog: seq<Product>, id: int)
    requires Valid(items) && FindProduct(catalog, id).Some?
    ensures var after := CartAfterAdd(items, catalog, id);
      var price := if InCart(items, id) then EntryFor(items, id).price else FindProduct(catalog, id).value.price;
      && Valid(after)
      && ItemCount(after) == ItemCount(items) + 1
      && Subtotal(after) == Subtotal(items) + price
  {
    var after := CartAfterAdd(items, catalog, id);
    var p := FindProduct(catalog, id).value;
    if InCart(items, id) {
      SumsBumped(items, after, id, 1);
    } else {
      SumsAppend(items, [NewLine(p)]);
      assert [NewLine(p)][1..] == [];
    }
  }

  /** `changeQty` keeps the cart valid and moves the count by `delta`, or by
      minus the old quantity when the entry is removed. */
  lemma ChangeEffects(items: seq<CartItem>, id: int, delta: int)
    requires Valid(items) && InCart(items, id)
    ensures var after := CartAfterChange(items, id, delta);
      var e := EntryFor(items, id);
      && Valid(after)
      && (e.qty + delta <= 0 ==> !InCart(after, id) && ItemCount(after) == ItemCount(items) - e.qty)
      && (e.qty + delta <= 0 ==> Subtotal(after) == Subtotal(items) - e.price * e.qty)
      && (e.qty + delta > 0 ==> ItemCount(after) == ItemCount(items) + delta)
      && (e.qty + delta > 0 ==> Subtotal(after) == Subtotal(items) + delta * e.price)
  {
    ChangeSpec(items, id, delta);
    var e := EntryFor(items, id);
    if e.qty + delta <= 0 {
      SumsRemoved(items, id);
      RemoveEffects(items, id);
    } else {
      SumsBumped(items, CartAfterChange(items, id, delta), id, delta);
    }
  }

  /** Removal keeps the cart valid. */
  lemma {:induction false} RemoveEffects(items: seq<CartItem>, id: int)
    requires Valid(items)
    ensures Valid(CartAfterRemove(items, id))
  {
    if items != [] {
      var rest := items[1..];
      assert items == [items[0]] + rest;
      RemoveEffects(rest, id);
      RemoveAppend([items[0]], rest, id);
      assert [items[0]][1..] == [];
      var r := CartAfterRemove(items, id);
      if items[0].id != id {
        var tail := CartAfterRemove(rest, id);
        assert r == [items[0]] + tail;
        forall j | 0 <= j < |tail| ensures tail[j].id != items[0].id {
          assert tail[j] in rest;
        }
      }
    }
  }
}
