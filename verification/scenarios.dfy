/** Worked examples on the page's own catalog. */
module Scenarios {
  import Options
  import Sequences
  import Text
  import Catalog
  import ShoppingCart

  /** The lines of the cart after adding the iPhone, the AirPods and the
      iPhone again. */
  function TwoIphonesAndAirPods(): seq<ShoppingCart.CartItem>
  {
    [ShoppingCart.NewLine(Catalog.Products[0]).(quantity := 2), ShoppingCart.NewLine(Catalog.Products[1])]
  }

  /** Two iPhones and one pair of AirPods give two lines, the iPhone's
      merged to quantity 2. */
  method AddExample()
  {
    var iphone, airpods := Catalog.Products[0], Catalog.Products[1];
    var one, two := ShoppingCart.NewLine(iphone), ShoppingCart.NewLine(airpods);
    var cart := new ShoppingCart.Cart();
    ShoppingCart.AddAbsent([], iphone);
    cart.Add(iphone);
    assert cart.items == [one];
    ShoppingCart.AddAbsent([one], airpods);
    cart.Add(airpods);
    assert cart.items == [one, two];
    ShoppingCart.AddExisting([one, two], iphone, 0);
    cart.Add(iphone);
    assert cart.items == TwoIphonesAndAirPods();
  }

  /** That cart costs 139990 * 2 + 29990 and shows 3 on the badge. */
  lemma TotalExample()
    ensures ShoppingCart.Total(TwoIphonesAndAirPods()) == 309970
    ensures ShoppingCart.Badge(TwoIphonesAndAirPods()) == Options.Some(3)
  {
    var items := TwoIphonesAndAirPods();
    var merged, two := items[0], items[1];
    assert items == [merged] + [two];
    Sequences.SumAppend([merged], [two], ShoppingCart.Subtotal);
    Sequences.SumSingle(merged, ShoppingCart.Subtotal);
    Sequences.SumSingle(two, ShoppingCart.Subtotal);
    Sequences.SumAppend([merged], [two], ShoppingCart.LineQuantity);
    Sequences.SumSingle(merged, ShoppingCart.LineQuantity);
    Sequences.SumSingle(two, ShoppingCart.LineQuantity);
  }

  /** Removing an id that is not in that cart changes nothing; removing the
      iPhone leaves the AirPods line alone, at 29990. */
  method RemoveExample()
  {
    var cart := new ShoppingCart.Cart();
    cart.items := TwoIphonesAndAirPods();
    var items := cart.items;
    assert !ShoppingCart.HasId(items, 5);
    cart.Remove(5);
    assert cart.items == items;

    ShoppingCart.RemoveAt(items, 0);
    assert items[..0] + items[1..] == [items[1]];
    cart.Remove(1);
    assert cart.items == [items[1]];
    Sequences.SumSingle(items[1], ShoppingCart.Subtotal);
    assert ShoppingCart.Total(cart.items) == 29990;
  }

  /** The recommended section shows the iPhone, the AirPods and the iPad. */
  lemma RecommendedExample()
    ensures Catalog.RecommendedProducts(Catalog.Products) ==
            [Catalog.Products[0], Catalog.Products[1], Catalog.Products[3]]
  {
  }

  /** The headphones category shows only the AirPods. */
  lemma HeadphonesExample()
    ensures Catalog.FilteredProducts(Catalog.Products, "", "Наушники") == [Catalog.Products[1]]
  {
    Catalog.FilterByCategoryOnly(Catalog.Products, "Наушники");
    OnlyAirPodsAreHeadphones();
  }

  lemma OnlyAirPodsAreHeadphones()
    ensures Sequences.Filter(Catalog.Products, Catalog.InCategory("Наушники")) == [Catalog.Products[1]]
  {
    var ps, inCategory := Catalog.Products, Catalog.InCategory("Наушники");
    Sequences.FilterKeepsNone(ps[2..], inCategory);
    assert ps[1..][1..] == ps[2..];
  }

  /** The search ignores case: the query "IPHONE" matches the iPhone's
      name, and not the AirPods', which lack the letter n. */
  lemma SearchExample()
    ensures Catalog.MatchesSearch(Catalog.Products[0], "IPHONE")
    ensures !Catalog.MatchesSearch(Catalog.Products[1], "IPHONE")
  {
    var ps := Catalog.Products;
    var query := Text.Lower("IPHONE");
    assert query == "iphone";
    assert Text.Lower(ps[0].name)[..6] == "iphone";
    assert Text.Lower(ps[1].name) == "airpods pro 2";
    Text.IncludedChars(Text.Lower(ps[1].name), query);
    assert 'n' in query && 'n' !in "airpods pro 2";
    assert !Text.Includes(Text.Lower(ps[1].name), query);
  }
}
