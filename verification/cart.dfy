/** The shopping cart of the storefront page: an ordered list of lines, one
    per product, updated by `addToCart` and `removeFromCart`, and read by the
    total shown in the cart panel and the item count on the header badge. */
module ShoppingCart {
  import opened Options
  import Sequences
  import Catalog

  /** A cart line. Name, price and image are copied from the product when
      the line is created and are never refreshed afterwards. */
  datatype CartItem = CartItem(id: int, name: string, price: nat, quantity: nat, image: string)

  /** The line the first add of a product creates. */
  function NewLine(p: Catalog.Product): CartItem
  {
    CartItem(p.id, p.name, p.price, 1, p.image)
  }

  predicate HasId(cart: seq<CartItem>, id: int)
  {
    exists i :: 0 <= i < |cart| && cart[i].id == id
  }

  /** At most one line per product id. */
  predicate UniqueIds(cart: seq<CartItem>)
  {
    forall i, j :: 0 <= i < j < |cart| ==> cart[i].id != cart[j].id
  }

  /** No line is ever left at quantity zero. */
  predicate PositiveQuantities(cart: seq<CartItem>)
  {
    forall i :: 0 <= i < |cart| ==> cart[i].quantity >= 1
  }

  /** The cart invariant every reachable cart satisfies. */
  predicate Valid(cart: seq<CartItem>)
  {
    UniqueIds(cart) && PositiveQuantities(cart)
  }

  // ---------------------------------------------------------------------
  // addToCart

  /** `cart.find(item => item.id === id)`: a line with that id when there is
      one, nothing exactly when there is none. */
  function Find(cart: seq<CartItem>, id: int): (r: Option<CartItem>)
    ensures r.Some? ==> r.value in cart && r.value.id == id
    ensures r.None? <==> !HasId(cart, id)
  {
    if cart == [] then None
    else if cart[0].id == id then Some(cart[0])
    else
      assert forall i :: 1 <= i < |cart| ==> cart[1..][i - 1] == cart[i];
      Find(cart[1..], id)
  }

  function Bump(line: CartItem): CartItem
  {
    line.(quantity := line.quantity + 1)
  }

  /** The `map` step of `addToCart`: every line with the id gets one more.
      No line moves, nothing but quantities changes, every line carrying the
      id is bumped by one, and lines with other ids are left alone. */
  function IncrementLines(cart: seq<CartItem>, id: int): (r: seq<CartItem>)
    ensures |r| == |cart|
    ensures forall i :: 0 <= i < |cart| ==> r[i].(quantity := cart[i].quantity) == cart[i]
    ensures forall i :: 0 <= i < |cart| && cart[i].id == id ==> r[i] == Bump(cart[i])
    ensures forall i :: 0 <= i < |cart| && cart[i].id != id ==> r[i] == cart[i]
  {
    seq(|cart|, i requires 0 <= i < |cart| => if cart[i].id == id then Bump(cart[i]) else cart[i])
  }

  /** The cart after `addToCart(p)`: merge into the existing line, or append
      a new one. Either way the product has a line afterwards, and the cart
      grows by one line exactly when it had none. */
  function AddTo(cart: seq<CartItem>, p: Catalog.Product): (r: seq<CartItem>)
    ensures HasId(r, p.id)
    ensures |r| == if HasId(cart, p.id) then |cart| else |cart| + 1
  {
    if Find(cart, p.id).Some? then IncrementLines(cart, p.id)
    else
      var r := cart + [NewLine(p)];
      assert r[|cart|].id == p.id;
      r
  }

  /** Adding a product that already has a line raises that line's quantity
      by exactly one; its name, price and image stay as first captured and
      every other line is unchanged and in place. */
  lemma AddExisting(cart: seq<CartItem>, p: Catalog.Product, k: nat)
    requires UniqueIds(cart) && k < |cart| && cart[k].id == p.id
    ensures AddTo(cart, p) == cart[k := cart[k].(quantity := cart[k].quantity + 1)]
  {
    assert HasId(cart, p.id);
  }

  /** Adding a product that has no line appends one line at the end, with
      the product's id, name, price and image and quantity 1; the earlier
      lines are unchanged. */
  lemma AddAbsent(cart: seq<CartItem>, p: Catalog.Product)
    requires !HasId(cart, p.id)
    ensures |AddTo(cart, p)| == |cart| + 1
    ensures AddTo(cart, p)[..|cart|] == cart
    ensures AddTo(cart, p)[|cart|] == CartItem(p.id, p.name, p.price, 1, p.image)
  {
  }

  /** Adding keeps one line per id and every quantity at least one, and the
      product has a line afterwards. */
  lemma AddKeepsValid(cart: seq<CartItem>, p: Catalog.Product)
    requires Valid(cart)
    ensures Valid(AddTo(cart, p))
    ensures HasId(AddTo(cart, p), p.id)
  {
    if HasId(cart, p.id) {
      var k :| 0 <= k < |cart| && cart[k].id == p.id;
      AddExisting(cart, p, k);
      assert AddTo(cart, p)[k].id == p.id;
    } else {
      var r := AddTo(cart, p);
      assert r == cart + [NewLine(p)];
      assert r[|cart|].id == p.id;
    }
  }

  /** The cart after adding the products of `ps`, first to last. */
  function AddAll(cart: seq<CartItem>, ps: seq<Catalog.Product>): seq<CartItem>
  {
    if ps == [] then cart else AddTo(AddAll(cart, ps[..|ps| - 1]), ps[|ps| - 1])
  }

  lemma {:induction false} AddAllAppend(cart: seq<CartItem>, ps: seq<Catalog.Product>, qs: seq<Catalog.Product>)
    ensures AddAll(cart, ps + qs) == AddAll(AddAll(cart, ps), qs)
    decreases |qs|
  {
    if qs == [] {
      assert ps + qs == ps;
    } else {
      var n := |qs| - 1;
      assert (ps + qs)[..|ps + qs| - 1] == ps + qs[..n];
      assert (ps + qs)[|ps + qs| - 1] == qs[n];
      AddAllAppend(cart, ps, qs[..n]);
    }
  }

  function LineQuantityOf(id: int): CartItem -> nat
  {
    (line: CartItem) => if line.id == id then line.quantity else 0
  }

  /** How many units of product `id` the cart holds. */
  function QuantityOf(cart: seq<CartItem>, id: int): nat
  {
    Sequences.Sum(cart, LineQuantityOf(id))
  }

  function AddsOf(id: int): Catalog.Product -> nat
  {
    (p: Catalog.Product) => if p.id == id then 1 else 0
  }

  /** How many of the products in `ps` have the id. */
  function CountOf(ps: seq<Catalog.Product>, id: int): nat
  {
    Sequences.Sum(ps, AddsOf(id))
  }

  /** In a cart with one line per id, the quantity held of a product is the
      quantity on its line, and zero when it has none. */
  lemma QuantityOfLine(cart: seq<CartItem>, id: int)
    requires UniqueIds(cart)
    ensures !HasId(cart, id) ==> QuantityOf(cart, id) == 0
    ensures forall k :: 0 <= k < |cart| && cart[k].id == id ==> QuantityOf(cart, id) == cart[k].quantity
  {
    forall k | 0 <= k < |cart| && cart[k].id == id
      ensures QuantityOf(cart, id) == cart[k].quantity
    {
      var rest := cart[..k] + cart[k + 1..];
      assert forall i :: 0 <= i < |rest| ==> rest[i] == if i < k then cart[i] else cart[i + 1];
      Sequences.SumRemoveAt(cart, k, LineQuantityOf(id));
    }
  }

  /** One add raises the quantity held of the added product by one and of
      every other product by nothing. */
  lemma AddQuantity(cart: seq<CartItem>, p: Catalog.Product, id: int)
    requires UniqueIds(cart)
    ensures QuantityOf(AddTo(cart, p), id) == QuantityOf(cart, id) + (if p.id == id then 1 else 0)
  {
    if HasId(cart, p.id) {
      var k :| 0 <= k < |cart| && cart[k].id == p.id;
      AddExisting(cart, p, k);
      Sequences.SumUpdate(cart, k, cart[k].(quantity := cart[k].quantity + 1), LineQuantityOf(id));
    } else {
      Sequences.SumAppend(cart, [NewLine(p)], LineQuantityOf(id));
      Sequences.SumSingle(NewLine(p), LineQuantityOf(id));
    }
  }

  /** Any run of adds keeps the cart invariant and raises the quantity held
      of each product by the number of times it was added. */
  lemma {:induction false} AddAllQuantity(cart: seq<CartItem>, ps: seq<Catalog.Product>, id: int)
    requires Valid(cart)
    ensures Valid(AddAll(cart, ps))
    ensures QuantityOf(AddAll(cart, ps), id) == QuantityOf(cart, id) + CountOf(ps, id)
  {
    if ps != [] {
      var n := |ps| - 1;
      AddAllQuantity(cart, ps[..n], id);
      AddKeepsValid(AddAll(cart, ps[..n]), ps[n]);
      AddQuantity(AddAll(cart, ps[..n]), ps[n], id);
    }
  }

  /** Starting from the empty cart, after any run of adds each product has
      a line exactly when it was added, there is one line per product, and
      that line's quantity is the number of adds of that product. */
  lemma QuantityIsNumberOfAdds(ps: seq<Catalog.Product>, id: int)
    ensures Valid(AddAll([], ps))
    ensures HasId(AddAll([], ps), id) <==> CountOf(ps, id) > 0
    ensures forall k :: 0 <= k < |AddAll([], ps)| && AddAll([], ps)[k].id == id ==>
              AddAll([], ps)[k].quantity == CountOf(ps, id)
  {
    var c := AddAll([], ps);
    AddAllQuantity([], ps, id);
    QuantityOfLine(c, id);
  }

  /** Adding never moves a line nor changes anything on it but its quantity. */
  lemma AddKeepsLine(cart: seq<CartItem>, p: Catalog.Product, k: nat)
    requires k < |cart|
    ensures k < |AddTo(cart, p)|
    ensures AddTo(cart, p)[k].(quantity := cart[k].quantity) == cart[k]
  {
  }

  lemma {:induction false} AddAllKeepsLine(cart: seq<CartItem>, ps: seq<Catalog.Product>, k: nat)
    requires k < |cart|
    ensures k < |AddAll(cart, ps)|
    ensures AddAll(cart, ps)[k].(quantity := cart[k].quantity) == cart[k]
  {
    if ps != [] {
      var n := |ps| - 1;
      var c := AddAll(cart, ps[..n]);
      AddAllKeepsLine(cart, ps[..n], k);
      AddKeepsLine(c, ps[n], k);
    }
  }

  /** The price is frozen at the first add: starting from the empty cart,
      the line of a product carries the name, price and image of the
      product as it was at its first add, whatever was added later. */
  lemma CapturedAtFirstAdd(ps: seq<Catalog.Product>, j: nat, k: nat)
    requires j < |ps| && forall i :: 0 <= i < j ==> ps[i].id != ps[j].id
    requires k < |AddAll([], ps)| && AddAll([], ps)[k].id == ps[j].id
    ensures AddAll([], ps)[k] == CartItem(ps[j].id, ps[j].name, ps[j].price, AddAll([], ps)[k].quantity, ps[j].image)
  {
    var c := AddAll([], ps);
    var m := FirstLineStays(ps, j);
    QuantityIsNumberOfAdds(ps, ps[j].id);
    assert k == m by {
      assert UniqueIds(c);
    }
  }

  /** The line the first add of a product appends stays where it was put,
      with its captured fields, through every later add. */
  lemma FirstLineStays(ps: seq<Catalog.Product>, j: nat) returns (m: nat)
    requires j < |ps| && forall i :: 0 <= i < j ==> ps[i].id != ps[j].id
    ensures m < |AddAll([], ps)|
    ensures AddAll([], ps)[m] == NewLine(ps[j]).(quantity := AddAll([], ps)[m].quantity)
  {
    m := |AddAll([], ps[..j])|;
    FirstAddAppends(ps, j);
    var after := AddAll([], ps[..j + 1]);
    assert after[m] == NewLine(ps[j]);
    assert ps == ps[..j + 1] + ps[j + 1..];
    AddAllAppend([], ps[..j + 1], ps[j + 1..]);
    AddAllKeepsLine(after, ps[j + 1..], m);
  }

  /** The first add of a product appends its line to the cart built so far. */
  lemma FirstAddAppends(ps: seq<Catalog.Product>, j: nat)
    requires j < |ps| && forall i :: 0 <= i < j ==> ps[i].id != ps[j].id
    ensures AddAll([], ps[..j + 1]) == AddAll([], ps[..j]) + [NewLine(ps[j])]
    ensures Valid(AddAll([], ps[..j + 1]))
  {
    var id := ps[j].id;
    var before := AddAll([], ps[..j]);
    assert forall i :: 0 <= i < j ==> ps[..j][i] == ps[i];
    assert CountOf(ps[..j], id) == 0;
    QuantityIsNumberOfAdds(ps[..j], id);
    assert ps[..j + 1][..j] == ps[..j];
    AddAbsent(before, ps[j]);
    AddKeepsValid(before, ps[j]);
  }

  // ---------------------------------------------------------------------
  // removeFromCart

  function KeepsOther(id: int): CartItem -> bool
  {
    (line: CartItem) => line.id != id
  }

  /** The cart after `removeFromCart(id)`: no line with the id is left, and
      the lines kept are exactly the others. */
  function RemoveFrom(cart: seq<CartItem>, id: int): (r: seq<CartItem>)
    ensures !HasId(r, id)
    ensures forall line :: line in r <==> line in cart && line.id != id
  {
    var r := Sequences.Filter(cart, KeepsOther(id));
    Sequences.FilterMembers(cart, KeepsOther(id));
    assert forall i :: 0 <= i < |r| ==> r[i] in r;
    r
  }

  /** Removal keeps the remaining lines in their order. */
  lemma RemoveInOrder(cart: seq<CartItem>, id: int) returns (idx: seq<nat>)
    ensures Sequences.IsSelection(cart, KeepsOther(id), RemoveFrom(cart, id), idx)
  {
    idx := Sequences.FilterIsSelection(cart, KeepsOther(id));
  }

  /** Removing an id that has no line leaves the cart exactly as it was. */
  lemma RemoveAbsent(cart: seq<CartItem>, id: int)
    requires !HasId(cart, id)
    ensures RemoveFrom(cart, id) == cart
  {
    Sequences.FilterKeepsAll(cart, KeepsOther(id));
  }

  /** In a cart with one line per id, removing a line's id cuts out exactly
      that line. */
  lemma RemoveAt(cart: seq<CartItem>, k: nat)
    requires UniqueIds(cart) && k < |cart|
    ensures RemoveFrom(cart, cart[k].id) == cart[..k] + cart[k + 1..]
  {
    OtherLinesLackId(cart, k);
    assert cart == cart[..k] + [cart[k]] + cart[k + 1..];
    CutOut(cart[..k], cart[k], cart[k + 1..]);
  }

  lemma CutOut(before: seq<CartItem>, line: CartItem, after: seq<CartItem>)
    requires !HasId(before, line.id) && !HasId(after, line.id)
    ensures RemoveFrom(before + [line] + after, line.id) == before + after
  {
    var keep := KeepsOther(line.id);
    calc {
      RemoveFrom(before + [line] + after, line.id);
      Sequences.Filter(before + [line] + after, keep);
      { Sequences.FilterAppend(before + [line], after, keep); }
      Sequences.Filter(before + [line], keep) + Sequences.Filter(after, keep);
      { Sequences.FilterAppend(before, [line], keep); }
      Sequences.Filter(before, keep) + Sequences.Filter([line], keep) + Sequences.Filter(after, keep);
      { RemoveAbsent(before, line.id); RemoveAbsent(after, line.id); }
      before + Sequences.Filter([line], keep) + after;
      { assert Sequences.Filter([line], keep) == []; }
      before + after;
    }
  }

  /** In a cart with one line per id, only line `k` carries its id. */
  lemma OtherLinesLackId(cart: seq<CartItem>, k: nat)
    requires UniqueIds(cart) && k < |cart|
    ensures !HasId(cart[..k], cart[k].id) && !HasId(cart[k + 1..], cart[k].id)
  {
    var after := cart[k + 1..];
    forall i | 0 <= i < |after|
      ensures after[i].id != cart[k].id
    {
      assert after[i] == cart[k + 1 + i];
    }
  }

  /** Removing keeps one line per id and every quantity at least one. */
  lemma RemoveKeepsValid(cart: seq<CartItem>, id: int)
    requires Valid(cart)
    ensures Valid(RemoveFrom(cart, id))
  {
    var r := RemoveFrom(cart, id);
    var idx := RemoveInOrder(cart, id);
    forall i, j | 0 <= i < j < |r|
      ensures r[i].id != r[j].id
    {
      assert idx[i] < idx[j];
    }
  }

  /** Adding a product with no line and then removing its id gives back the
      cart as it was. */
  lemma AddThenRemove(cart: seq<CartItem>, p: Catalog.Product)
    requires !HasId(cart, p.id)
    ensures RemoveFrom(AddTo(cart, p), p.id) == cart
  {
    Sequences.FilterAppend(cart, [NewLine(p)], KeepsOther(p.id));
    RemoveAbsent(cart, p.id);
    assert Sequences.Filter([NewLine(p)], KeepsOther(p.id)) == [];
  }

  /** When the product already has a line, the add only bumps that line and
      the remove then drops the whole line: the round trip does not restore
      the cart but loses the line and all of its quantity. */
  lemma AddThenRemovePresent(cart: seq<CartItem>, p: Catalog.Product, k: nat)
    requires UniqueIds(cart) && k < |cart| && cart[k].id == p.id
    ensures RemoveFrom(AddTo(cart, p), p.id) == cart[..k] + cart[k + 1..]
  {
    var bumped := cart[k := cart[k].(quantity := cart[k].quantity + 1)];
    AddExisting(cart, p, k);
    assert UniqueIds(bumped) by {
      assert forall i :: 0 <= i < |cart| ==> bumped[i].id == cart[i].id;
    }
    RemoveAt(bumped, k);
    assert bumped[..k] == cart[..k] && bumped[k + 1..] == cart[k + 1..];
  }

  // ---------------------------------------------------------------------
  // getTotalPrice and the header badge

  function Subtotal(line: CartItem): nat
  {
    line.price * line.quantity
  }

  /** `getTotalPrice()`: the sum of price times quantity over the lines. It
      is zero exactly when every line has a zero price or quantity. */
  function Total(cart: seq<CartItem>): (r: nat)
    ensures r == 0 <==> forall i :: 0 <= i < |cart| ==> cart[i].price == 0 || cart[i].quantity == 0
  {
    Sequences.Sum(cart, Subtotal)
  }

  function LineQuantity(line: CartItem): nat
  {
    line.quantity
  }

  /** The number on the header badge: the sum of the quantities. It is zero
      exactly when every line has quantity zero. */
  function ItemCount(cart: seq<CartItem>): (r: nat)
    ensures r == 0 <==> forall i :: 0 <= i < |cart| ==> cart[i].quantity == 0
  {
    Sequences.Sum(cart, LineQuantity)
  }

  /** The header badge: rendered only while the cart has lines, showing
      the item count. A hidden badge never hides an item. */
  function Badge(cart: seq<CartItem>): (r: Option<nat>)
    ensures r.None? ==> ItemCount(cart) == 0
    ensures r.Some? ==> r.value == ItemCount(cart)
  {
    if |cart| > 0 then Some(ItemCount(cart)) else None
  }

  lemma {:induction false} ItemCountAtLeastLines(cart: seq<CartItem>)
    requires PositiveQuantities(cart)
    ensures ItemCount(cart) >= |cart|
  {
    if cart != [] {
      var n := |cart| - 1;
      assert forall i :: 0 <= i < n ==> cart[..n][i] == cart[i];
      ItemCountAtLeastLines(cart[..n]);
    }
  }

  /** In a valid cart the badge is shown exactly when there is something
      to count, and it counts at least one item per line. */
  lemma BadgeShowsItems(cart: seq<CartItem>)
    requires PositiveQuantities(cart)
    ensures Badge(cart).Some? <==> ItemCount(cart) > 0
    ensures Badge(cart).Some? ==> Badge(cart).value >= |cart|
  {
    ItemCountAtLeastLines(cart);
  }

  /** Adding a product raises the total by the unit price of its line: the
      price captured at the first add when it has a line, the product's
      price otherwise. When that captured price is the product's current
      price, the total rises by exactly the product's price. */
  lemma TotalAdd(cart: seq<CartItem>, p: Catalog.Product)
    requires UniqueIds(cart)
    ensures Total(AddTo(cart, p)) == Total(cart) + (match Find(cart, p.id) case Some(line) => line.price case None => p.price)
    ensures (forall i :: 0 <= i < |cart| && cart[i].id == p.id ==> cart[i].price == p.price) ==>
              Total(AddTo(cart, p)) == Total(cart) + p.price
  {
    if HasId(cart, p.id) {
      var k :| 0 <= k < |cart| && cart[k].id == p.id;
      FindInUnique(cart, k);
      TotalAddExisting(cart, p, k);
    } else {
      Sequences.SumAppend(cart, [NewLine(p)], Subtotal);
      Sequences.SumSingle(NewLine(p), Subtotal);
    }
  }

  lemma TotalAddExisting(cart: seq<CartItem>, p: Catalog.Product, k: nat)
    requires UniqueIds(cart) && k < |cart| && cart[k].id == p.id
    ensures Total(AddTo(cart, p)) == Total(cart) + cart[k].price
  {
    AddExisting(cart, p, k);
    Sequences.SumUpdate(cart, k, cart[k].(quantity := cart[k].quantity + 1), Subtotal);
    SubtotalOneMore(cart[k]);
  }

  /** In a cart with one line per id, `find` returns the line of that id. */
  lemma FindInUnique(cart: seq<CartItem>, k: nat)
    requires UniqueIds(cart) && k < |cart|
    ensures Find(cart, cart[k].id) == Some(cart[k])
  {
    assert HasId(cart, cart[k].id);
    var j :| 0 <= j < |cart| && cart[j] == Find(cart, cart[k].id).value;
  }

  lemma SubtotalOneMore(line: CartItem)
    ensures Subtotal(line.(quantity := line.quantity + 1)) == Subtotal(line) + line.price
  {
    assert line.price * (line.quantity + 1) == line.price * line.quantity + line.price;
  }

  /** Every add puts exactly one more item on the badge. */
  lemma ItemCountAdd(cart: seq<CartItem>, p: Catalog.Product)
    requires UniqueIds(cart)
    ensures ItemCount(AddTo(cart, p)) == ItemCount(cart) + 1
  {
    if HasId(cart, p.id) {
      var k :| 0 <= k < |cart| && cart[k].id == p.id;
      AddExisting(cart, p, k);
      Sequences.SumUpdate(cart, k, cart[k].(quantity := cart[k].quantity + 1), LineQuantity);
    } else {
      Sequences.SumAppend(cart, [NewLine(p)], LineQuantity);
      Sequences.SumSingle(NewLine(p), LineQuantity);
    }
  }

  /** Removing a line takes exactly its subtotal off the total and its
      quantity off the badge. */
  lemma RemoveLowersTotals(cart: seq<CartItem>, k: nat)
    requires UniqueIds(cart) && k < |cart|
    ensures Total(RemoveFrom(cart, cart[k].id)) + cart[k].price * cart[k].quantity == Total(cart)
    ensures ItemCount(RemoveFrom(cart, cart[k].id)) + cart[k].quantity == ItemCount(cart)
  {
    RemoveAt(cart, k);
    Sequences.SumRemoveAt(cart, k, Subtotal);
    Sequences.SumRemoveAt(cart, k, LineQuantity);
  }

  /** The total never exceeds the dearest line's price times the number of
      items. */
  lemma {:induction false} TotalBound(cart: seq<CartItem>, maxPrice: nat)
    requires forall i :: 0 <= i < |cart| ==> cart[i].price <= maxPrice
    ensures Total(cart) <= maxPrice * ItemCount(cart)
  {
    if cart != [] {
      var n := |cart| - 1;
      assert forall i :: 0 <= i < n ==> cart[..n][i] == cart[i];
      TotalBound(cart[..n], maxPrice);
      ScaledLine(cart[n], maxPrice);
      var q := cart[n].quantity;
      assert ItemCount(cart) == ItemCount(cart[..n]) + q;
      assert Total(cart) == Total(cart[..n]) + Subtotal(cart[n]);
      Distribute(maxPrice, ItemCount(cart[..n]), q);
    }
  }

  lemma Distribute(m: nat, a: nat, b: nat)
    ensures m * (a + b) == m * a + m * b
  {
  }

  lemma ScaledLine(line: CartItem, maxPrice: nat)
    requires line.price <= maxPrice
    ensures Subtotal(line) <= maxPrice * line.quantity
  {
  }

  // ---------------------------------------------------------------------
  // The page's cart state

  /** The `cart` state cell of the page. `setCart(prev => next)` becomes an
      assignment of the next list to `items`. */
  class Cart {
    var items: seq<CartItem>

    constructor ()
      ensures items == [] && Valid(items)
    {
      items := [];
    }

    /** `addToCart(product)`. */
    method Add(p: Catalog.Product)
      modifies this
      ensures items == AddTo(old(items), p)
      ensures Valid(old(items)) ==> Valid(items)
    {
      items := AddTo(items, p);
      if Valid(old(items)) {
        AddKeepsValid(old(items), p);
      }
    }

    /** `removeFromCart(id)`. */
    method Remove(id: int)
      modifies this
      ensures items == RemoveFrom(old(items), id)
      ensures !HasId(items, id)
      ensures Valid(old(items)) ==> Valid(items)
      ensures !HasId(old(items), id) ==> items == old(items)
    {
      items := RemoveFrom(items, id);
      if Valid(old(items)) {
        RemoveKeepsValid(old(items), id);
      }
      if !HasId(old(items), id) {
        RemoveAbsent(old(items), id);
      }
    }
  }
}
