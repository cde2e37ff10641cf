/**
 * The product catalog section: a fixed list of stones, a row of category
 * buttons that choose which of them are shown, and a flag that turns on the
 * entry animation once the section has scrolled into view.
 */
module Products {

  import opened Optional
  import opened CategoryFilter

  /** A catalog entry; `price` is optional. */
  datatype Product = Product(
    id: int,
    name: string,
    category: Category,
    image: string,
    description: string,
    price: Option<string>)

  function ProductCategory(p: Product): Category
  {
    p.category
  }

  /** The catalog, in display order. */
  const Catalog: seq<Product> := [
    Product(1, "Carrara White", Marble,
      "https://images.pexels.com/photos/1571463/pexels-photo-1571463.jpeg?auto=compress&cs=tinysrgb&w=800",
      "Classic white marble with elegant gray veining", Some("Premium")),
    Product(2, "Calacatta Gold", Marble,
      "https://images.pexels.com/photos/1571461/pexels-photo-1571461.jpeg?auto=compress&cs=tinysrgb&w=800",
      "Luxurious marble with golden veining", Some("Luxury")),
    Product(3, "Black Galaxy", Granite,
      "https://images.pexels.com/photos/1571459/pexels-photo-1571459.jpeg?auto=compress&cs=tinysrgb&w=800",
      "Deep black granite with golden speckles", Some("Premium")),
    Product(4, "Kashmir White", Granite,
      "https://images.pexels.com/photos/1571457/pexels-photo-1571457.jpeg?auto=compress&cs=tinysrgb&w=800",
      "Light granite with subtle pattern", Some("Standard")),
    Product(5, "Emperador Dark", Marble,
      "https://images.pexels.com/photos/1571456/pexels-photo-1571456.jpeg?auto=compress&cs=tinysrgb&w=800",
      "Rich brown marble with light veining", Some("Premium")),
    Product(6, "Absolute Black", Granite,
      "https://images.pexels.com/photos/1571454/pexels-photo-1571454.jpeg?auto=compress&cs=tinysrgb&w=800",
      "Pure black granite for modern designs", Some("Standard"))
  ]

  /**
   * The products on display: all of them under 'all', otherwise exactly those
   * of the active category, in catalog order.
   */
  function FilteredProducts(products: seq<Product>, activeCategory: Filter): (r: seq<Product>)
    ensures activeCategory == All ==> r == products
    ensures forall i :: 0 <= i < |r| ==> r[i] in products && Admits(activeCategory, r[i].category)
    ensures forall i :: 0 <= i < |products| && Admits(activeCategory, products[i].category) ==>
              products[i] in r
    ensures SubsequenceOf(r, products)
    ensures forall p :: multiset(r)[p] ==
              if Admits(activeCategory, p.category) then multiset(products)[p] else 0
  {
    Displayed(products, ProductCategory, activeCategory)
  }

  /** The marble and the granite lists together are the whole catalog. */
  lemma ProductsPartition(products: seq<Product>)
    ensures |FilteredProducts(products, Only(Marble))| + |FilteredProducts(products, Only(Granite))|
            == |products|
    ensures multiset(FilteredProducts(products, Only(Marble))) +
            multiset(FilteredProducts(products, Only(Granite))) == multiset(products)
  {
    KeepPartition(products, ProductCategory);
  }

  /** Filtering the displayed list again by the same choice changes nothing. */
  lemma ProductsFilterIdempotent(products: seq<Product>, activeCategory: Filter)
    ensures FilteredProducts(FilteredProducts(products, activeCategory), activeCategory)
            == FilteredProducts(products, activeCategory)
  {
    if activeCategory.Only? {
      KeepIdempotent(products, ProductCategory, activeCategory.category);
    }
  }

  /** On the shipped catalog, products 1, 2 and 5 are the marble ones. */
  lemma MarbleProducts()
    ensures FilteredProducts(Catalog, Only(Marble)) == [Catalog[0], Catalog[1], Catalog[4]]
  {
    var s, c := Catalog, ProductCategory;
    assert s[6..] == [];
    assert Keep(s[5..], c, Marble) == [];
    assert Keep(s[4..], c, Marble) == [s[4]];
    assert Keep(s[3..], c, Marble) == [s[4]];
    assert Keep(s[2..], c, Marble) == [s[4]];
    assert Keep(s[1..], c, Marble) == [s[1], s[4]];
    assert Keep(s, c, Marble) == [s[0], s[1], s[4]];
  }

  /** On the shipped catalog, products 3, 4 and 6 are the granite ones. */
  lemma GraniteProducts()
    ensures FilteredProducts(Catalog, Only(Granite)) == [Catalog[2], Catalog[3], Catalog[5]]
  {
    var s, c := Catalog, ProductCategory;
    assert s[6..] == [];
    assert Keep(s[5..], c, Granite) == [s[5]];
    assert Keep(s[4..], c, Granite) == [s[5]];
    assert Keep(s[3..], c, Granite) == [s[3], s[5]];
    assert Keep(s[2..], c, Granite) == [s[2], s[3], s[5]];
    assert Keep(s[1..], c, Granite) == [s[2], s[3], s[5]];
    assert Keep(s, c, Granite) == [s[2], s[3], s[5]];
  }

  /** The section's component state. */
  class ProductsSection {

    var activeCategory: Filter
    var isVisible: bool

    constructor ()
      ensures activeCategory == All && !isVisible
    {
      activeCategory := All;
      isVisible := false;
    }

    /** A category button was clicked. */
    method SelectCategory(category: Filter)
      modifies this
      ensures activeCategory == category
      ensures isVisible == old(isVisible)
    {
      activeCategory := category;
    }

    /**
     * The intersection observer fired: visibility is switched on when the
     * section intersects the viewport and never switched off.
     */
    method ObserveIntersection(isIntersecting: bool)
      modifies this
      ensures isVisible == (old(isVisible) || isIntersecting)
      ensures activeCategory == old(activeCategory)
    {
      if isIntersecting {
        isVisible := true;
      }
    }
  }

}
