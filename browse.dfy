/**
 * The simple catalog page (frontend/script.js). It loads every product at
 * once and filters on the client: by the `vendor` query parameter of the
 * page's address (ignoring case) and by the category button that is
 * active. The category buttons come from the distinct, sorted categories
 * of the products.
 */
module Browse {
  import opened Js
  import opened Api
  import opened Badges
  import opened Lists

  const NoImage := "https://placehold.co/600x400?text=No+Image"
  const NoDescription := "No description available."
  const NoName := "Unnamed Product"
  const NoCategory := "Uncategorized"
  const NoLink := "#"

  /** What a product card shows. The price is the raw field value when one
      is shown; its formatting as a two-decimal amount is not modelled. */
  datatype Card = Card(
    image: string,
    alt: string,
    name: string,
    description: string,
    category: string,
    badge: Label,
    price: Option<JsValue>,
    link: string
  )

  /** A child of the product container. */
  datatype Item = ProductCard(card: Card) | NoProductsNotice | LoadFailedNotice

  // ---------------------------------------------------------------------
  // Categories
  // ---------------------------------------------------------------------

  /** `products.map(p => p.category)`. */
  function CategoryValues(ps: seq<Product>): seq<JsValue>
  {
    seq(|ps|, i requires 0 <= i < |ps| => ps[i].category)
  }

  /** `Array.from(new Set(categories.filter(Boolean))).sort()`: the truthy
      categories, each once, sorted by their text. */
  function DeriveCategories(ps: seq<Product>): seq<JsValue>
  {
    SortBy(Distinct(Filter(CategoryValues(ps), Truthy)), ToJsString)
  }

  /** The truthy values of `CategoryValues`, as a membership test on the products. */
  lemma TruthyCategoryValues(ps: seq<Product>)
    ensures forall c :: c in Filter(CategoryValues(ps), Truthy) <==>
      Truthy(c) && exists i :: 0 <= i < |ps| && ps[i].category == c
  {
    var values := CategoryValues(ps);
    FilterMembers(values, Truthy);
    assert |values| == |ps|;
    forall c ensures c in values <==> exists i :: 0 <= i < |ps| && ps[i].category == c {
      if c in values {
        var i :| 0 <= i < |values| && values[i] == c;
        assert ps[i].category == c;
      }
      if exists i :: 0 <= i < |ps| && ps[i].category == c {
        var i :| 0 <= i < |ps| && ps[i].category == c;
        assert values[i] == c;
      }
    }
  }

  /** The category list holds every truthy category of the products exactly
      once, nothing else, in ascending order of its text. */
  lemma DeriveCategoriesSpec(ps: seq<Product>)
    ensures var cs := DeriveCategories(ps);
      && NoDuplicates(cs)
      && SortedBy(cs, ToJsString)
      && (forall c :: c in cs <==> Truthy(c) && exists i :: 0 <= i < |ps| && ps[i].category == c)
  {
    var kept := Filter(CategoryValues(ps), Truthy);
    var distinct := Distinct(kept);
    var cs := DeriveCategories(ps);
    TruthyCategoryValues(ps);
    DistinctSpec(kept);
    SortBySpec(distinct, ToJsString);
    PermutationKeepsNoDuplicates(distinct, cs);
    forall c ensures c in cs <==> c in distinct {
      assert c in cs <==> c in multiset(cs);
    }
  }

  /** When every category is a string or missing, the category list is
      strictly ascending: no two buttons carry the same text. */
  lemma CategoriesStrictlyAscending(ps: seq<Product>)
    requires forall i :: 0 <= i < |ps| ==> ps[i].category.Str? || !Truthy(ps[i].category)
    ensures var cs := DeriveCategories(ps);
      forall i, j :: 0 <= i < j < |cs| ==>
        LexLe(ToJsString(cs[i]), ToJsString(cs[j])) && ToJsString(cs[i]) != ToJsString(cs[j])
  {
    var cs := DeriveCategories(ps);
    DeriveCategoriesSpec(ps);
    forall i, j | 0 <= i < j < |cs| ensures ToJsString(cs[i]) != ToJsString(cs[j]) {
      assert cs[i] in cs && cs[j] in cs;
      assert cs[i].Str? && cs[j].Str?;
    }
  }

  // ---------------------------------------------------------------------
  // Filters
  // ---------------------------------------------------------------------

  /** `product.vendor && product.vendor.toLowerCase() === vendor.toLowerCase()`:
      a missing vendor does not match, and a truthy vendor that is not a
      string has no `toLowerCase` and throws. */
  function VendorMatches(p: Product, vendor: string): Outcome<bool>
  {
    if !Truthy(p.vendor) then Value(false)
    else match LowerOrThrow(p.vendor)
      case Throws => Throws
      case Value(lower) => Value(lower == Lower(vendor))
  }

  /** `products.filter(...)` with the vendor test, in order; the first
      product that throws ends the filter with the throw. */
  function VendorFilter(ps: seq<Product>, vendor: string): Outcome<seq<Product>>
  {
    if ps == [] then Value([])
    else match VendorMatches(ps[0], vendor)
      case Throws => Throws
      case Value(keep) =>
        match VendorFilter(ps[1..], vendor)
        case Throws => Throws
        case Value(rest) => Value(if keep then [ps[0]] + rest else rest)
  }

  /** The products the vendor filter keeps: a non-empty string vendor equal
      to the query when case is ignored. */
  predicate VendorKeeps(p: Product, vendor: string)
  {
    p.vendor.Str? && p.vendor.s != "" && EqualsIgnoringCase(p.vendor.s, vendor)
  }

  /** Two texts are equal after lower-casing exactly when they are equal
      ignoring case. */
  lemma LowerEqualIffIgnoringCase(a: string, b: string)
    ensures Lower(a) == Lower(b) <==> EqualsIgnoringCase(a, b)
  {
    LowerAt(a);
    LowerAt(b);
    if Lower(a) == Lower(b) {
      assert forall i :: 0 <= i < |a| ==> LowerChar(a[i]) == Lower(a)[i];
    }
  }

  /** One product under the vendor test: it throws exactly on a truthy
      non-string vendor, and otherwise keeps exactly the matching vendors. */
  lemma VendorMatchesSpec(p: Product, vendor: string)
    ensures VendorMatches(p, vendor).Throws? <==> Truthy(p.vendor) && !p.vendor.Str?
    ensures VendorMatches(p, vendor).Value? ==> VendorMatches(p, vendor).value == VendorKeeps(p, vendor)
  {
    if p.vendor.Str? {
      LowerEqualIffIgnoringCase(p.vendor.s, vendor);
    }
  }

  /** The vendor filter throws exactly when some product has a truthy vendor
      that is not a string; otherwise it keeps exactly the products whose
      vendor matches, in their original order. */
  lemma {:induction false} VendorFilterSpec(ps: seq<Product>, vendor: string)
    ensures VendorFilter(ps, vendor).Throws? <==>
      exists i :: 0 <= i < |ps| && Truthy(ps[i].vendor) && !ps[i].vendor.Str?
    ensures VendorFilter(ps, vendor).Value? ==>
      VendorFilter(ps, vendor).value == Filter(ps, p => VendorKeeps(p, vendor))
  {
    if ps != [] {
      VendorMatchesSpec(ps[0], vendor);
      VendorFilterSpec(ps[1..], vendor);
      if exists i :: 0 <= i < |ps[1..]| && Truthy(ps[1..][i].vendor) && !ps[1..][i].vendor.Str? {
        var i :| 0 <= i < |ps[1..]| && Truthy(ps[1..][i].vendor) && !ps[1..][i].vendor.Str?;
        assert ps[i + 1] == ps[1..][i];
      }
      if exists i :: 0 <= i < |ps| && Truthy(ps[i].vendor) && !ps[i].vendor.Str? {
        var i :| 0 <= i < |ps| && Truthy(ps[i].vendor) && !ps[i].vendor.Str?;
        if i > 0 {
          assert ps[1..][i - 1] == ps[i];
        }
      }
    }
  }

  /** `p.category && p.category === activeCategory`. */
  predicate InCategory(p: Product, active: JsValue)
  {
    Truthy(p.category) && p.category == active
  }

  /** With an active (truthy) category only products whose category equals
      it exactly are kept; a null category keeps every product. */
  function CategoryFilter(ps: seq<Product>, active: JsValue): seq<Product>
  {
    if Truthy(active) then Filter(ps, p => InCategory(p, active)) else ps
  }

  /** The category filter keeps, in order, exactly the products whose
      category is the active one, compared exactly (so case matters). */
  lemma CategoryFilterSpec(ps: seq<Product>, active: JsValue)
    requires Truthy(active)
    ensures IsSubsequence(CategoryFilter(ps, active), ps)
    ensures forall p :: p in CategoryFilter(ps, active) <==> p in ps && p.category == active
  {
    FilterIsSubsequence(ps, p => InCategory(p, active));
    FilterMembers(ps, p => InCategory(p, active));
  }

  /** The products on display: the vendor filter when the vendor query is
      truthy, then the category filter. */
  function View(ps: seq<Product>, vendor: Option<string>, active: JsValue): Outcome<seq<Product>>
  {
    var byVendor := if TruthyParam(vendor) then VendorFilter(ps, vendor.value) else Value(ps);
    match byVendor
    case Throws => Throws
    case Value(shown) => Value(CategoryFilter(shown, active))
  }

  /** Without a vendor query and with no active category every product is
      shown; whether the view throws does not depend on the category. */
  lemma ViewSpec(ps: seq<Product>, vendor: Option<string>, active: JsValue, other: JsValue)
    ensures !TruthyParam(vendor) && !Truthy(active) ==> View(ps, vendor, active) == Value(ps)
    ensures View(ps, vendor, active).Throws? == View(ps, vendor, other).Throws?
    ensures View(ps, vendor, active).Throws? ==>
      TruthyParam(vendor) && exists i :: 0 <= i < |ps| && Truthy(ps[i].vendor) && !ps[i].vendor.Str?
  {
    if TruthyParam(vendor) {
      VendorFilterSpec(ps, vendor.value);
    }
  }

  // ---------------------------------------------------------------------
  // Cards
  // ---------------------------------------------------------------------

  /** The price is shown unless it is undefined, null or the empty string. */
  function Price(v: JsValue): Option<JsValue>
  {
    if v == Undefined || v == Null || v == Str("") then None else Some(v)
  }

  /** Every truthy price is shown, and so are the falsy prices `0` and
      `false`: the test is not truthiness. */
  lemma PriceVersusTruthy(v: JsValue)
    ensures Truthy(v) ==> Price(v) == Some(v)
    ensures Price(v).Some? && !Truthy(v) <==> v == Num(0) || v == Bool(false)
  {
  }

  /** The card for one product; each text falls back to a default when its
      field is falsy, so none is ever empty. */
  function CardOf(p: Product): Card
  {
    Card(
      ToJsString(Or(Or(p.imageUrl, p.image), Str(NoImage))),
      ToJsString(Or(p.name, Str(""))),
      ToJsString(Or(p.name, Str(NoName))),
      ToJsString(Or(p.description, Str(NoDescription))),
      ToJsString(Or(p.category, Str(NoCategory))),
      SynonymBadge(p.veganStatus, p.vegan),
      Price(p.price),
      ToJsString(Or(Or(p.productLink, p.link), Str(NoLink))))
  }

  /** No text of a card is ever empty. Each field falls back along its
      chain: the image to `image` and then the placeholder, the link to
      `link` and then `#`; a missing or empty name, description or category
      reads as its default. */
  lemma CardDefaults(p: Product)
    ensures var c := CardOf(p);
      && c.image != "" && c.name != "" && c.description != "" && c.category != "" && c.link != ""
      && c.badge == SynonymBadge(p.veganStatus, p.vegan)
      && c.image == (if Truthy(p.imageUrl) then ToJsString(p.imageUrl)
                     else if Truthy(p.image) then ToJsString(p.image) else NoImage)
      && c.link == (if Truthy(p.productLink) then ToJsString(p.productLink)
                    else if Truthy(p.link) then ToJsString(p.link) else NoLink)
      && (p.name.Str? ==> c.name == (if p.name.s == "" then NoName else p.name.s))
      && (!Truthy(p.name) ==> c.name == NoName && c.alt == "")
      && (!Truthy(p.description) ==> c.description == NoDescription)
      && (!Truthy(p.category) ==> c.category == NoCategory)
  {
  }

  /** The container after a successful render: the notice alone when
      nothing is shown, otherwise one card per shown product, in order. */
  function Shown(ps: seq<Product>): (r: seq<Item>)
  {
    if ps == [] then [NoProductsNotice]
    else seq(|ps|, i requires 0 <= i < |ps| => ProductCard(CardOf(ps[i])))
  }

  // ---------------------------------------------------------------------
  // The page
  // ---------------------------------------------------------------------

  class CatalogPage {
    /** The products of the one response; never modified. */
    const products: seq<Product>
    /** The `vendor` query parameter of the page's own address. */
    const vendor: Option<string>
    /** Whether the products arrived, so that the buttons were built. */
    const loaded: bool
    /** The category buttons after "All". */
    const categories: seq<JsValue>
    /** The category of the last button clicked; null for "All". */
    var activeCategory: JsValue
    /** The children of the product container. */
    var container: seq<Item>
    /** The vendor named in the vendor banner, when it is displayed. */
    var vendorNotice: Option<string>

    ghost predicate Valid()
      reads this
    {
      && (loaded ==> categories == DeriveCategories(products))
      && (!loaded ==> categories == [] && products == [])
      && (activeCategory == Null || activeCategory in categories)
    }

    /** The products arrived: the category buttons are built and the
        products are rendered with no category active. A render that throws
        is caught and shows the load-failure notice. */
    constructor Loaded(products: seq<Product>, vendor: Option<string>)
      ensures Valid() && loaded && activeCategory == Null
      ensures this.products == products && this.vendor == vendor
      ensures View(products, vendor, Null).Value? ==> container == Shown(View(products, vendor, Null).value)
      ensures View(products, vendor, Null).Value? ==> vendorNotice == (if TruthyParam(vendor) then vendor else None)
      ensures View(products, vendor, Null).Throws? ==> container == [LoadFailedNotice] && vendorNotice == None
    {
      this.products := products;
      this.vendor := vendor;
      loaded := true;
      categories := DeriveCategories(products);
      activeCategory := Null;
      container := [];
      vendorNotice := None;
      new;
      var ok := RenderProducts();
      if !ok {
        container := [LoadFailedNotice];
      }
    }

    /** The request failed: only the load-failure notice is shown. */
    constructor LoadFailed(vendor: Option<string>)
      ensures Valid() && !loaded && container == [LoadFailedNotice] && vendorNotice == None
    {
      products := [];
      this.vendor := vendor;
      loaded := false;
      categories := [];
      activeCategory := Null;
      container := [LoadFailedNotice];
      vendorNotice := None;
    }

    /** `renderProducts`: filters the products and replaces the container's
        children by the cards of the ones shown, or by the notice when none
        is. When the vendor filter throws, nothing on the page changes. */
    method RenderProducts() returns (ok: bool)
      modifies this`container, this`vendorNotice
      ensures ok <==> View(products, vendor, activeCategory).Value?
      ensures ok ==> container == Shown(View(products, vendor, activeCategory).value)
      ensures ok ==> vendorNotice == (if TruthyParam(vendor) then vendor else None)
      ensures !ok ==> container == old(container) && vendorNotice == old(vendorNotice)
    {
      var filtered := products;
      if TruthyParam(vendor) {
        var byVendor := VendorFilter(filtered, vendor.value);
        if byVendor.Throws? {
          return false;
        }
        filtered := byVendor.value;
        vendorNotice := vendor;
      } else {
        vendorNotice := None;
      }
      filtered := CategoryFilter(filtered, activeCategory);
      assert filtered == View(products, vendor, activeCategory).value;
      ShowProducts(filtered);
      ok := true;
    }

    /** Replaces the container's children by the notice when `shown` is
        empty, otherwise by one card per product of `shown`, in order. */
    method ShowProducts(shown: seq<Product>)
      modifies this`container
      ensures container == Shown(shown)
    {
      if |shown| == 0 {
        container := [NoProductsNotice];
        return;
      }
      container := [];
      var i := 0;
      while i < |shown|
        invariant 0 <= i <= |shown|
        invariant |container| == i
        invariant forall j :: 0 <= j < i ==> container[j] == ProductCard(CardOf(shown[j]))
      {
        container := container + [ProductCard(CardOf(shown[i]))];
        i := i + 1;
      }
    }

    /** A category button: that category becomes active and the products
        are rendered again. */
    method ClickCategory(cat: JsValue) returns (ok: bool)
      requires Valid() && loaded && cat in categories
      modifies this`activeCategory, this`container, this`vendorNotice
      ensures Valid() && activeCategory == cat
      ensures ok <==> View(products, vendor, cat).Value?
      ensures ok ==> container == Shown(View(products, vendor, cat).value)
      ensures ok ==> vendorNotice == (if TruthyParam(vendor) then vendor else None)
      ensures !ok ==> container == old(container) && vendorNotice == old(vendorNotice)
    {
      activeCategory := cat;
      ok := RenderProducts();
    }

    /** The "All" button: no category is active and the products are
        rendered again. */
    method ClickAll() returns (ok: bool)
      requires Valid() && loaded
      modifies this`activeCategory, this`container, this`vendorNotice
      ensures Valid() && activeCategory == Null
      ensures ok <==> View(products, vendor, Null).Value?
      ensures ok ==> container == Shown(View(products, vendor, Null).value)
      ensures ok ==> vendorNotice == (if TruthyParam(vendor) then vendor else None)
      ensures !ok ==> container == old(container) && vendorNotice == old(vendorNotice)
    {
      activeCategory := Null;
      ok := RenderProducts();
    }
  }

  /** Clicking a category and then "All" restores exactly the products the
      page showed when it loaded. */
  method AllRoundTrip(products: seq<Product>, vendor: Option<string>, cat: JsValue)
    returns (initial: seq<Item>, afterAll: seq<Item>)
    requires cat in DeriveCategories(products)
    ensures afterAll == initial
  {
    var page := new CatalogPage.Loaded(products, vendor);
    initial := page.container;
    ViewSpec(products, vendor, cat, Null);
    var picked := page.ClickCategory(cat);
    var all := page.ClickAll();
    afterAll := page.container;
  }
}
