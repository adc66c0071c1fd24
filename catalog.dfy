/**
 * The paginated catalog page (script.js). A controller owns the page state
 * (current page, category, status and vendor, and the in-flight flag) and
 * the rendered product container. The asynchronous product fetch is split
 * into the part that runs before the request is sent (`BeginFetch`) and the
 * two ways the request can end (`CompleteFetch`, `FailFetch`).
 */
module Catalog {
  import opened Js
  import opened Api
  import opened Badges

  const ImagePlaceholder := "https://placehold.co/600x400"

  /** What a product card shows: image, badge, name and link. */
  datatype Card = Card(image: string, badge: Label, name: string, link: string)

  /** A child of the product container. */
  datatype Item = ProductCard(card: Card) | NoProductsNotice

  /** The names of the query parameters a product request may carry. */
  datatype ParamName = Page | Vendor | CategoryParam | Status
  {
    /** The name as it appears in the query string. */
    function Text(): string
    {
      match this
      case Page => "page"
      case Vendor => "vendor"
      case CategoryParam => "category"
      case Status => "status"
    }
  }

  /** A query parameter, name then value, in the order it was appended. */
  type Param = (ParamName, string)

  // ---------------------------------------------------------------------
  // Cards
  // ---------------------------------------------------------------------

  /** The card for one product. Building it throws when the status is a truthy
      non-string, since the status is lower-cased first. The name and link are
      inserted as they are, so a missing one reads "undefined". */
  function CardFor(p: Product): Outcome<Card>
  {
    match ScriptBadge(p.veganStatus)
    case Throws => Throws
    case Value(badge) =>
      Value(Card(ToJsString(Or(p.imageUrl, Str(ImagePlaceholder))), badge,
                 ToJsString(p.name), ToJsString(p.productLink)))
  }

  /** Building a card throws exactly when the status is a truthy non-string.
      Otherwise the card carries the product's badge; its image is the
      product's `image_url` when that is truthy and the placeholder otherwise,
      so it is never empty; a missing name reads "undefined". */
  lemma CardOutcome(p: Product)
    ensures CardFor(p).Throws? <==> Truthy(p.veganStatus) && !p.veganStatus.Str?
    ensures CardFor(p).Value? ==>
      var card := CardFor(p).value;
      && card.badge == ScriptBadge(p.veganStatus).value
      && card.image != ""
      && (Truthy(p.imageUrl) ==> card.image == ToJsString(p.imageUrl))
      && (!Truthy(p.imageUrl) ==> card.image == ImagePlaceholder)
      && (p.name == Undefined ==> card.name == "undefined")
  {
  }

  /** Every product in `ps` renders without throwing. */
  predicate AllRender(ps: seq<Product>)
  {
    forall i :: 0 <= i < |ps| ==> CardFor(ps[i]).Value?
  }

  /** The cards the `forEach` loop appends before it stops: one per product,
      up to the first product whose card throws. */
  function Rendered(ps: seq<Product>): seq<Item>
  {
    if ps == [] then []
    else match CardFor(ps[0])
      case Throws => []
      case Value(c) => [ProductCard(c)] + Rendered(ps[1..])
  }

  /** When every product renders, there is one card per product, in order. */
  lemma {:induction false} RenderedAll(ps: seq<Product>)
    requires AllRender(ps)
    ensures |Rendered(ps)| == |ps|
    ensures forall i :: 0 <= i < |ps| ==> Rendered(ps)[i] == ProductCard(CardFor(ps[i]).value)
  {
    if ps != [] {
      assert CardFor(ps[0]).Value?;
      RenderedAll(ps[1..]);
    }
  }

  /** A product that throws ends the rendering: nothing after it appears. */
  lemma {:induction false} RenderedStopsAt(ps: seq<Product>, k: nat)
    requires k < |ps| && CardFor(ps[k]).Throws?
    requires forall j :: 0 <= j < k ==> CardFor(ps[j]).Value?
    ensures Rendered(ps) == Rendered(ps[..k])
  {
    if k > 0 {
      assert CardFor(ps[0]).Value?;
      assert ps[1..][..k - 1] == ps[..k][1..];
      RenderedStopsAt(ps[1..], k - 1);
    }
  }

  lemma {:induction false} RenderedExtend(ps: seq<Product>, k: nat)
    requires k < |ps| && CardFor(ps[k]).Value?
    requires forall j :: 0 <= j < k ==> CardFor(ps[j]).Value?
    ensures Rendered(ps[..k + 1]) == Rendered(ps[..k]) + [ProductCard(CardFor(ps[k]).value)]
  {
    if k > 0 {
      assert CardFor(ps[0]).Value?;
      assert ps[1..][..k - 1] == ps[..k][1..];
      assert ps[1..][..k] == ps[..k + 1][1..];
      RenderedExtend(ps[1..], k - 1);
    } else {
      assert Rendered(ps[..1][1..]) == [];
    }
  }

  // ---------------------------------------------------------------------
  // The request's query string
  // ---------------------------------------------------------------------

  /** The one parameter `if (value) url.searchParams.append(name, value)` adds:
      none when the value is null or empty. */
  function Appended(name: ParamName, value: Option<string>): seq<Param>
  {
    if TruthyParam(value) then [(name, value.value)] else []
  }

  /** The query parameters of a product request: `page` always, then
      `vendor`, `category` and `status`, each only when it is truthy. */
  function Query(page: int, vendor: Option<string>, category: Option<string>, status: Option<string>): seq<Param>
  {
    [(Page, ToJsString(Num(page)))] + Appended(Vendor, vendor) + Appended(CategoryParam, category)
    + Appended(Status, status)
  }

  /** Builds the query the way the request URL is built: one `append` per
      parameter. */
  method AppendSearchParams(page: int, vendor: Option<string>, category: Option<string>, status: Option<string>)
    returns (params: seq<Param>)
    ensures params == Query(page, vendor, category, status)
  {
    params := [(Page, ToJsString(Num(page)))];
    if TruthyParam(vendor) {
      params := params + [(Vendor, vendor.value)];
    }
    assert params == [(Page, ToJsString(Num(page)))] + Appended(Vendor, vendor);
    if TruthyParam(category) {
      params := params + [(CategoryParam, category.value)];
    }
    assert params == [(Page, ToJsString(Num(page)))] + Appended(Vendor, vendor) + Appended(CategoryParam, category);
    if TruthyParam(status) {
      params := params + [(Status, status.value)];
    }
  }

  /** The parameter names, in order. */
  function Names(q: seq<Param>): seq<ParamName>
  {
    if q == [] then [] else [q[0].0] + Names(q[1..])
  }

  /** `url.searchParams.get(name)`: the first value given for `name`. */
  function Lookup(q: seq<Param>, name: ParamName): Option<string>
  {
    if q == [] then None
    else if q[0].0 == name then Some(q[0].1)
    else Lookup(q[1..], name)
  }

  lemma {:induction false} NamesAppend(a: seq<Param>, b: seq<Param>)
    ensures Names(a + b) == Names(a) + Names(b)
  {
    if a != [] {
      NamesAppend(a[1..], b);
      assert (a + b)[0] == a[0] && (a + b)[1..] == a[1..] + b;
    } else {
      assert a + b == b;
    }
  }

  /** Looking a name up past an `Appended` segment. */
  lemma LookupPastAppended(name: ParamName, value: Option<string>, rest: seq<Param>, key: ParamName)
    ensures Lookup(Appended(name, value) + rest, key)
      == if key == name && TruthyParam(value) then value else Lookup(rest, key)
  {
    var q := Appended(name, value) + rest;
    if TruthyParam(value) {
      assert q[0] == (name, value.value) && q[1..] == rest;
    } else {
      assert q == rest;
    }
  }

  /** `page` comes first and always; `vendor`, `category` and `status`
      follow in that order, each present exactly when its value is truthy. */
  lemma QueryNames(page: int, vendor: Option<string>, category: Option<string>, status: Option<string>)
    ensures Query(page, vendor, category, status)[0] == (Page, ToJsString(Num(page)))
    ensures Names(Query(page, vendor, category, status)) == [Page]
      + (if TruthyParam(vendor) then [Vendor] else [])
      + (if TruthyParam(category) then [CategoryParam] else [])
      + (if TruthyParam(status) then [Status] else [])
  {
    var p, v, c, s := [(Page, ToJsString(Num(page)))], Appended(Vendor, vendor),
      Appended(CategoryParam, category), Appended(Status, status);
    assert Query(page, vendor, category, status) == p + v + c + s;
    NamesAppend(p + v + c, s);
    NamesAppend(p + v, c);
    NamesAppend(p, v);
  }

  /** Each parameter carries its own value: `page` the page number's text,
      and `vendor`, `category` and `status` their value exactly when it is
      truthy, and nothing otherwise. */
  lemma QueryLookup(page: int, vendor: Option<string>, category: Option<string>, status: Option<string>,
                    key: ParamName)
    ensures Lookup(Query(page, vendor, category, status), key) ==
      match key
      case Page => Some(ToJsString(Num(page)))
      case Vendor => if TruthyParam(vendor) then vendor else None
      case CategoryParam => if TruthyParam(category) then category else None
      case Status => if TruthyParam(status) then status else None
  {
    var v, c, s := Appended(Vendor, vendor), Appended(CategoryParam, category), Appended(Status, status);
    var q := Query(page, vendor, category, status);
    assert q[0] == (Page, ToJsString(Num(page))) && q[1..] == v + (c + s);
    match key
    case Page =>
    case _ =>
      LookupPastAppended(Vendor, vendor, c + s, key);
      LookupPastAppended(CategoryParam, category, s, key);
      LookupPastAppended(Status, status, [], key);
      assert s + [] == s;
  }

  /** The page number travels as decimal text that reads back as the page. */
  lemma PageParamRoundTrip(page: nat, vendor: Option<string>, category: Option<string>, status: Option<string>)
    ensures var text := Query(page, vendor, category, status)[0].1;
      (forall i :: 0 <= i < |text| ==> '0' <= text[i] <= '9') && ParseDecimal(text) == page
  {
    DecimalRoundTrip(page);
  }

  // ---------------------------------------------------------------------
  // The controller
  // ---------------------------------------------------------------------

  /** `value || null` for a string or null. */
  function OrNull(value: Option<string>): (r: Option<string>)
    ensures r == None || r == value
    ensures TruthyParam(r) == TruthyParam(value)
  {
    if TruthyParam(value) then value else None
  }

  class Controller {
    var currentPage: int
    var currentCategory: Option<string>
    var currentStatus: Option<string>
    const currentVendor: Option<string>
    var isFetching: bool

    /** The children of the product container. */
    var container: seq<Item>
    /** Whether the load-more control is displayed. */
    var loadMoreVisible: bool
    /** Whether the loading message is displayed. */
    var loadingVisible: bool
    /** Whether the loading message's text has been replaced by the error text. */
    var loadingShowsError: bool

    ghost predicate Valid()
      reads this
    {
      currentPage >= 1
    }

    /** The state when the page has loaded; `vendor` is the `vendor` query
        parameter of the page's own address, and the two displays start as the
        page markup has them. */
    constructor (vendor: Option<string>, loadingShown: bool, loadMoreShown: bool)
      ensures Valid()
      ensures currentPage == 1 && currentCategory == None && currentStatus == None
      ensures currentVendor == vendor && !isFetching && container == []
      ensures loadingVisible == loadingShown && loadMoreVisible == loadMoreShown && !loadingShowsError
    {
      currentPage := 1;
      currentCategory := None;
      currentStatus := None;
      currentVendor := vendor;
      isFetching := false;
      container := [];
      loadingVisible := loadingShown;
      loadMoreVisible := loadMoreShown;
      loadingShowsError := false;
    }

    /** The synchronous part of `fetchProducts`: while a request is in
        flight it does nothing; otherwise it raises the in-flight flag, shows
        the loading message on page 1, and returns the query to request. */
    method BeginFetch() returns (request: Option<seq<Param>>)
      requires Valid()
      modifies this
      ensures Valid()
      ensures old(isFetching) ==> request == None && unchanged(this)
      ensures !old(isFetching) ==>
        && isFetching
        && request == Some(Query(currentPage, currentVendor, currentCategory, currentStatus))
        && (currentPage == 1 ==> loadingVisible && !loadMoreVisible)
        && (currentPage != 1 ==> loadingVisible == old(loadingVisible) && loadMoreVisible == old(loadMoreVisible))
      ensures currentPage == old(currentPage) && currentCategory == old(currentCategory)
      ensures currentStatus == old(currentStatus) && container == old(container)
      ensures loadingShowsError == old(loadingShowsError)
    {
      if isFetching {
        return None;
      }
      isFetching := true;
      if currentPage == 1 {
        loadingVisible := true;
        loadMoreVisible := false;
      }
      var params := AppendSearchParams(currentPage, currentVendor, currentCategory, currentStatus);
      request := Some(params);
    }

    /** A category button: select its category (null for "All"), go back to
        page 1, empty the container and fetch. */
    method ChooseCategory(value: Option<string>) returns (request: Option<seq<Param>>)
      requires Valid()
      modifies this
      ensures Valid()
      ensures currentCategory == value && currentPage == 1 && container == []
      ensures currentStatus == old(currentStatus)
      ensures old(isFetching) ==> request == None && isFetching
      ensures !old(isFetching) ==> isFetching && request == Some(Query(1, currentVendor, value, currentStatus))
      ensures !old(isFetching) ==> loadingVisible && !loadMoreVisible
      ensures old(isFetching) ==> loadingVisible == old(loadingVisible) && loadMoreVisible == old(loadMoreVisible)
      ensures loadingShowsError == old(loadingShowsError)
    {
      currentCategory := value;
      currentPage := 1;
      container := [];
      request := BeginFetch();
    }

    /** The status switch: when its highlight element is missing nothing
        happens; otherwise `value || null` becomes the status, then as for a
        category. */
    method ChooseStatus(value: Option<string>, switchPresent: bool) returns (request: Option<seq<Param>>)
      requires Valid()
      modifies this
      ensures Valid()
      ensures !switchPresent ==> request == None && unchanged(this)
      ensures switchPresent ==> currentStatus == OrNull(value) && currentPage == 1 && container == []
      ensures switchPresent ==> currentCategory == old(currentCategory)
      ensures switchPresent && old(isFetching) ==> request == None && isFetching
      ensures switchPresent && !old(isFetching) ==>
        isFetching && request == Some(Query(1, currentVendor, currentCategory, OrNull(value)))
      ensures switchPresent && !old(isFetching) ==> loadingVisible && !loadMoreVisible
      ensures switchPresent && old(isFetching) ==>
        loadingVisible == old(loadingVisible) && loadMoreVisible == old(loadMoreVisible)
      ensures switchPresent ==> loadingShowsError == old(loadingShowsError)
    {
      if !switchPresent {
        return None;
      }
      currentStatus := OrNull(value);
      currentPage := 1;
      container := [];
      request := BeginFetch();
    }

    /** The load-more button: the page advances whether or not a request is
        in flight, and only then is the fetch guard consulted. */
    method LoadMore() returns (request: Option<seq<Param>>)
      requires Valid()
      modifies this
      ensures Valid()
      ensures currentPage == old(currentPage) + 1 && container == old(container)
      ensures currentCategory == old(currentCategory) && currentStatus == old(currentStatus)
      ensures loadMoreVisible == old(loadMoreVisible) && loadingVisible == old(loadingVisible)
      ensures loadingShowsError == old(loadingShowsError)
      ensures old(isFetching) ==> request == None && isFetching
      ensures !old(isFetching) ==>
        isFetching && request == Some(Query(old(currentPage) + 1, currentVendor, currentCategory, currentStatus))
    {
      currentPage := currentPage + 1;
      request := BeginFetch();
    }

    /** `renderProductCards`: appends one card per product, in order, and
        stops at the first product whose card throws. */
    method RenderProductCards(products: seq<Product>) returns (ok: bool)
      modifies this`container
      ensures ok <==> AllRender(products)
      ensures container == old(container) + Rendered(products)
    {
      var i := 0;
      while i < |products|
        invariant 0 <= i <= |products|
        invariant forall j :: 0 <= j < i ==> CardFor(products[j]).Value?
        invariant container == old(container) + Rendered(products[..i])
      {
        var card := CardFor(products[i]);
        if card.Throws? {
          RenderedStopsAt(products, i);
          return false;
        }
        RenderedExtend(products, i);
        container := container + [ProductCard(card.value)];
        i := i + 1;
      }
      assert products[..i] == products;
      return true;
    }

    /** A response with `results` and `has_next` arrived. The in-flight flag
        drops and the loading message hides. An empty first page shows the
        empty-state notice and hides load-more; otherwise the cards are
        appended after the existing ones and load-more shows exactly when
        there is a next page. A card that throws sends control to the error
        handler, which keeps the cards appended so far and sets the error
        text. */
    method CompleteFetch(results: seq<Product>, hasNext: bool)
      requires Valid() && isFetching
      modifies this
      ensures Valid() && !isFetching && !loadingVisible
      ensures currentPage == old(currentPage) && currentCategory == old(currentCategory)
      ensures currentStatus == old(currentStatus)
      ensures currentPage == 1 && results == [] ==>
        container == [NoProductsNotice] && !loadMoreVisible && loadingShowsError == old(loadingShowsError)
      ensures !(currentPage == 1 && results == []) ==> container == old(container) + Rendered(results)
      ensures !(currentPage == 1 && results == []) && AllRender(results) ==>
        loadMoreVisible == hasNext && loadingShowsError == old(loadingShowsError)
      ensures !(currentPage == 1 && results == []) && !AllRender(results) ==>
        loadMoreVisible == old(loadMoreVisible) && loadingShowsError
    {
      loadingVisible := false;
      isFetching := false;
      if currentPage == 1 && |results| == 0 {
        container := [NoProductsNotice];
        loadMoreVisible := false;
        return;
      }
      var ok := RenderProductCards(results);
      if ok {
        loadMoreVisible := hasNext;
      } else {
        loadingShowsError := true;
        isFetching := false;
      }
    }

    /** The request failed: the in-flight flag drops, the loading message's
        text becomes the error text, and nothing else changes. */
    method FailFetch()
      requires Valid() && isFetching
      modifies this
      ensures Valid() && !isFetching && loadingShowsError
      ensures currentPage == old(currentPage) && currentCategory == old(currentCategory)
      ensures currentStatus == old(currentStatus) && container == old(container)
      ensures loadMoreVisible == old(loadMoreVisible) && loadingVisible == old(loadingVisible)
    {
      loadingShowsError := true;
      isFetching := false;
    }
  }

  /** The page loads and its first page arrives with a next page; load-more
      requests page 2, and a second click while page 2 is loading advances
      to page 3 without requesting it, so the click after page 2 arrives
      requests page 4: page 3 is never fetched. The button is displayed at
      every click. */
  method SkippedPage(vendor: Option<string>, page1: seq<Product>, page2: seq<Product>)
    returns (second: Option<seq<Param>>, during: Option<seq<Param>>, next: Option<seq<Param>>)
    requires page1 != [] && AllRender(page1) && AllRender(page2)
    ensures second == Some(Query(2, vendor, None, None))
    ensures during == None
    ensures next == Some(Query(4, vendor, None, None))
  {
    var c := new Controller(vendor, true, false);
    var first := c.BeginFetch();
    c.CompleteFetch(page1, true);
    assert c.loadMoreVisible;
    second := c.LoadMore();
    assert c.loadMoreVisible;
    during := c.LoadMore();
    assert c.loadMoreVisible && c.currentPage == 3;
    c.CompleteFetch(page2, true);
    assert c.loadMoreVisible;
    next := c.LoadMore();
  }
}
