/** The product catalog of the storefront page and its two derived views:
    the catalog grid, filtered by the search box and the selected category,
    and the recommended section. */
module Catalog {
  import opened Options
  import Sequences
  import Text

  /** A catalog entry. Prices are whole rubles. The optional flags `isNew`
      and `isRecommended` read as false when absent. */
  datatype Product = Product(
    id: int,
    name: string,
    price: nat,
    originalPrice: Option<nat>,
    image: string,
    category: string,
    reviews: nat,
    isNew: bool,
    isRecommended: bool)

  /** The category sentinel that places no restriction. */
  const AllProducts: string := "Все товары"

  /** The category bar: the sentinel followed by the real categories. */
  const Categories: seq<string> :=
    [AllProducts, "Смартфоны", "Наушники", "Ноутбуки", "Планшеты", "Часы", "Компьютеры"]

  /** The hard-coded catalog the page is seeded with. */
  const Products: seq<Product> := [
    Product(1, "iPhone 15 Pro Max", 139990, Some(149990),
            "/img/f988827b-1226-45ef-bc49-5cf1d568f162.jpg", "Смартфоны", 1247, true, true),
    Product(2, "AirPods Pro 2", 29990, None,
            "/img/d71be1eb-22e1-4754-8d58-3398033a45f9.jpg", "Наушники", 856, false, true),
    Product(3, "MacBook Pro 16\"", 289990, None,
            "/img/abd5fa87-a0d4-4602-a324-1fe81ed79398.jpg", "Ноутбуки", 432, true, false),
    Product(4, "iPad Air 5", 79990, Some(89990),
            "/img/f988827b-1226-45ef-bc49-5cf1d568f162.jpg", "Планшеты", 624, false, true),
    Product(5, "Apple Watch Ultra", 99990, None,
            "/img/d71be1eb-22e1-4754-8d58-3398033a45f9.jpg", "Часы", 312, false, false),
    Product(6, "iMac 24\" M3", 189990, None,
            "/img/abd5fa87-a0d4-4602-a324-1fe81ed79398.jpg", "Компьютеры", 187, true, false)
  ]

  /** Every catalog entry carries one of the real categories of the
      category bar, never the sentinel, and no two entries share an id. */
  lemma ProductsWellFormed()
    ensures forall p :: p in Products ==> p.category in Categories[1..]
    ensures forall i, j :: 0 <= i < j < |Products| ==> Products[i].id != Products[j].id
  {
  }

  /** The name contains the query, both lower-cased. */
  predicate MatchesSearch(p: Product, query: string)
  {
    Text.Includes(Text.Lower(p.name), Text.Lower(query))
  }

  /** The selected category is the sentinel or exactly the product's. */
  predicate MatchesCategory(p: Product, category: string)
  {
    category == AllProducts || p.category == category
  }

  /** The test the catalog grid applies to each product. */
  function Matcher(query: string, category: string): Product -> bool
  {
    p => MatchesSearch(p, query) && MatchesCategory(p, category)
  }

  /** The catalog grid: a product is shown exactly when it passes both the
      search and the category test. */
  function FilteredProducts(products: seq<Product>, query: string, category: string): (r: seq<Product>)
    ensures forall p :: p in r <==> p in products && MatchesSearch(p, query) && MatchesCategory(p, category)
  {
    Sequences.FilterMembers(products, Matcher(query, category));
    Sequences.Filter(products, Matcher(query, category))
  }

  /** The grid keeps the catalog order: it is the matching products, each
      at its own place, and none left out. */
  lemma FilteredProductsInOrder(products: seq<Product>, query: string, category: string) returns (idx: seq<nat>)
    ensures Sequences.IsSelection(products, Matcher(query, category), FilteredProducts(products, query, category), idx)
  {
    idx := Sequences.FilterIsSelection(products, Matcher(query, category));
  }

  /** With an empty search box and the sentinel category, the grid is the
      whole catalog, in order. */
  lemma FilterNothing(products: seq<Product>)
    ensures FilteredProducts(products, "", AllProducts) == products
  {
    Sequences.FilterKeepsAll(products, Matcher("", AllProducts));
  }

  function InCategory(category: string): Product -> bool
  {
    (p: Product) => p.category == category
  }

  /** With an empty search box and a real category, the grid is exactly the
      products tagged with that category, whatever their names. */
  lemma FilterByCategoryOnly(products: seq<Product>, category: string)
    requires category != AllProducts
    ensures FilteredProducts(products, "", category) == Sequences.Filter(products, InCategory(category))
  {
    Sequences.FilterAgrees(products, Matcher("", category), InCategory(category));
  }

  /** The search is case-insensitive: lower-casing the query beforehand
      does not change the grid. */
  lemma SearchIgnoresCase(products: seq<Product>, query: string, category: string)
    ensures FilteredProducts(products, Text.Lower(query), category) == FilteredProducts(products, query, category)
  {
    Text.LowerIdempotent(query);
    Sequences.FilterAgrees(products, Matcher(Text.Lower(query), category), Matcher(query, category));
  }

  function IsRecommended(): Product -> bool
  {
    (p: Product) => p.isRecommended
  }

  /** The recommended section: exactly the flagged products, ignoring the
      search box and the category. */
  function RecommendedProducts(products: seq<Product>): (r: seq<Product>)
    ensures forall p :: p in r <==> p in products && p.isRecommended
  {
    Sequences.FilterMembers(products, IsRecommended());
    Sequences.Filter(products, IsRecommended())
  }

  /** The recommended section keeps the catalog order and leaves no flagged
      product out. */
  lemma RecommendedInOrder(products: seq<Product>) returns (idx: seq<nat>)
    ensures Sequences.IsSelection(products, IsRecommended(), RecommendedProducts(products), idx)
  {
    idx := Sequences.FilterIsSelection(products, IsRecommended());
  }
}
