# Vegan product catalog: a Dafny model

The repository is a browser front end for a catalog of vegan and non-vegan
products. It has two pages:

- `script.js` is the paginated page. A controller holds the current page,
  category, vegan status, vendor and an in-flight flag. It requests one
  page of products at a time and appends the cards to the product
  container. A "Load more" button asks for the next page.
- `frontend/script.js` is the simple page. It loads every product at once
  and builds category buttons from the products' categories. It filters on
  the client, by the `vendor` parameter of the page's address (ignoring
  case) and by the active category. It re-renders the container on every
  click.

The two pages draw a vegan-status badge (Vegan, Not Vegan or Unknown) by
two different rules. The model keeps both rules and proves where they
disagree.

Modules:

- `Js` (js.dfy): the JavaScript semantics the pages rely on.
  - JSON field values, truthiness and `||`.
  - `String(v)` and the decimal text of a page number.
  - ASCII `toLowerCase`, and the TypeError it raises on a value that is
    not a string.
  - The regular-expression class `\s`.
  - The string order used by the default `sort`.
- `Lists` (lists.dfy): `filter`, de-duplication through a `Set` (first
  occurrences, in order) and the stable default sort.
- `Api` (api.dfy): a product record. Every field is optional.
- `Badges` (badges.dfy): both badge rules.
  - The paginated rule: normalise the status (lower-case, then every
    white-space character or hyphen becomes `_`), then match exactly.
  - The simple rule: lower-case, then match against lists of synonyms.
- `Catalog` (catalog.dfy): the paginated page.
  - A `Controller` class with one method per handler.
  - `fetchProducts` split into `BeginFetch`, which applies the guard and
    returns the query to request or nothing, and `CompleteFetch` /
    `FailFetch`, which handle the response.
- `Browse` (browse.dfy): the simple page.
  - The category derivation, the two filters and the card defaults.
  - A `CatalogPage` class whose click handlers re-render the container.

## Model

| member | source | states |
|---|---|---|
| Js.Or | frontend/script.js:90-94 | the JavaScript logical or is one of its two operands, and it is truthy exactly when either operand is |
| Js.ToJsString | script.js:197 | `String(v)` of a truthy value is never empty, and a string is inserted as it is |
| Js.Decimal | script.js:127 | the page number's text is non-empty, all digits, without a leading zero |
| Js.DecimalRoundTrip | script.js:127 | the page number's decimal text reads back as the page number |
| Js.DecimalInjective | script.js:127 | different page numbers give different page texts |
| Js.LowerAt | script.js:173 | `toLowerCase` keeps the length and lower-cases each character |
| Js.LowerIdempotent | script.js:173 | lower-casing twice is lower-casing once |
| Js.LowerOrThrow | script.js:172-173 | `toLowerCase` gives a value exactly when it is called on a string; on anything else it throws |
| Js.LexLeTotal | frontend/script.js:30 | any two texts are ordered one way or the other by the default sort's order |
| Js.LexLeTransitive | frontend/script.js:30 | the sort order is transitive |
| Js.LexLeAntisymmetric | frontend/script.js:30 | texts ordered both ways are equal |
| Lists.FilterMembers | frontend/script.js:66-68 | `filter` keeps exactly the elements that pass the test |
| Lists.FilterIsSubsequence | frontend/script.js:76 | `filter` keeps its survivors in their original order |
| Lists.DistinctSpec | frontend/script.js:30 | `Array.from(new Set(xs))` holds every element of `xs` exactly once and nothing else |
| Lists.InsertPermutes | frontend/script.js:30 | one insertion step of the sort adds exactly the inserted element |
| Lists.InsertSorted | frontend/script.js:30 | one insertion step keeps the list sorted |
| Lists.SortBySpec | frontend/script.js:30 | the sort returns an ordered permutation of its input |
| Lists.PermutationKeepsNoDuplicates | frontend/script.js:30 | sorting a duplicate-free list leaves it duplicate-free |
| Badges.ReplaceSeparatorsAt | script.js:174 | `.replace(/[\s-]/g, '_')` keeps the length and puts `_` exactly where there was a white-space character or hyphen |
| Badges.NormaliseChar | script.js:172-174 | a normalised character is neither a separator nor upper case |
| Badges.NormaliseStatusAt | script.js:172-174 | normalisation keeps the length and works character by character |
| Badges.NormaliseStatusIdempotent | script.js:172-174 | normalising twice is normalising once |
| Badges.ScriptBadge | script.js:172-185 | the paginated badge throws exactly for a truthy non-string status; a missing or empty status gives Unknown |
| Badges.ScriptBadgeVegan | script.js:179-181 | Vegan exactly when the status is `vegan` in any case |
| Badges.ScriptBadgeNotVegan | script.js:182-185 | Not Vegan exactly when the status is `non`, one separator or underscore, then `vegan`, in any case |
| Badges.NotVeganSpellingsAgree | script.js:172-185 | "Non-Vegan", "NON VEGAN" and "non_vegan" all show Not Vegan on the paginated page |
| Badges.SynonymsIgnoreCase | frontend/script.js:98-108 | Vegan exactly for `vegan`, `yes` or `true`, Not Vegan exactly for `non-vegan`, `not vegan`, `no` or `false`, in any case |
| Badges.SynonymBadgeFallback | frontend/script.js:93 | `vegan` is read only when `vegan_status` is falsy, and with neither the badge is Unknown |
| Badges.UnknownReadsUnknown | frontend/script.js:93 | the fallback text `unknown` itself gives Unknown |
| Badges.SynonymsHaveNoUnderscore | frontend/script.js:99-102 | no recognised synonym contains an underscore |
| Badges.UnderscoreUnknownOnSimplePage | frontend/script.js:98-108 | any status with an underscore shows Unknown on the simple page, so `non_vegan`, Not Vegan on the paginated page, is Unknown here |
| Badges.NotVeganPhraseDisagrees | frontend/script.js:102 | "not vegan" is Not Vegan on the simple page but Unknown on the paginated one |
| Badges.YesAndTrueDisagree | frontend/script.js:99 | "yes" and a boolean `true` are Vegan on the simple page; the paginated page shows Unknown for "yes" and throws on `true` |
| Catalog.CardOutcome | script.js:172-200 | a card throws exactly for a truthy non-string status; otherwise it carries the badge, its image is `image_url` or the placeholder (never empty), and a missing name reads "undefined" |
| Catalog.RenderedAll | script.js:167-210 | when no card throws there is one card per product, in order |
| Catalog.RenderedStopsAt | script.js:167-210 | the first card that throws ends the `forEach`; nothing after it is appended |
| Catalog.RenderedExtend | script.js:209 | each product that renders adds its card at the end |
| Catalog.AppendSearchParams | script.js:126-136 | the step-by-step `append` calls build exactly the query `Query` describes |
| Catalog.QueryNames | script.js:126-136 | `page` is always present and first, then `vendor`, `category` and `status` in that order, each only when its value is non-null and non-empty |
| Catalog.QueryLookup | script.js:126-136 | each parameter carries its own value, and an absent or empty value adds nothing, so "All" (a null category) sends no `category` |
| Catalog.PageParamRoundTrip | script.js:127 | the page parameter is decimal text that reads back as the page |
| Catalog.OrNull | script.js:106 | a status falls back to null: the result is null or the value itself, and is truthy exactly when the value is |
| Catalog.Controller.constructor | script.js:8-12 | page 1, no category or status, the page's vendor, nothing in flight, an empty container |
| Catalog.Controller.BeginFetch | script.js:115-136 | while a request is in flight nothing changes and nothing is requested; otherwise the flag rises, page 1 shows the loading message and hides load-more, and the query for the current state is returned |
| Catalog.Controller.ChooseCategory | script.js:56-67 | the category is set, the page resets to 1, the container empties, then the guarded fetch runs: when it starts, the loading text shows and the load-more button hides; during a fetch the request and the display are left alone |
| Catalog.Controller.ChooseStatus | script.js:87-112 | with no switch highlight nothing happens; otherwise the status becomes the value, or null when it is empty, the page resets to 1, the container empties, then the guarded fetch runs, showing the loading text and hiding the load-more button when it starts and leaving the display alone during a fetch |
| Catalog.Controller.LoadMore | script.js:214-219 | the page advances even while a request is in flight, and only then does the guard run; the displays do not change |
| Catalog.Controller.RenderProductCards | script.js:166-211 | the cards are appended after the existing ones, in order, up to the first product that throws; the result says whether all rendered |
| Catalog.Controller.CompleteFetch | script.js:138-157 | the flag drops and the loading message hides; an empty first page shows the notice and hides load-more; otherwise the cards are appended and load-more shows exactly when there is a next page |
| Catalog.Controller.FailFetch | script.js:158-162 | the flag drops, the error text is set, and cards, page, filters and displays are unchanged |
| Catalog.SkippedPage | script.js:214-219 | a second load-more click during the page-2 request advances to page 3 without requesting it, so the next click requests page 4 |
| Browse.TruthyCategoryValues | frontend/script.js:30 | the truthy categories are exactly the categories of some product that are truthy |
| Browse.DeriveCategoriesSpec | frontend/script.js:30 | the category list has no duplicates and no empty or missing entry, is sorted ascending, and holds exactly the truthy product categories |
| Browse.CategoriesStrictlyAscending | frontend/script.js:30 | with string categories no two buttons carry the same text |
| Browse.LowerEqualIffIgnoringCase | frontend/script.js:67 | equal after `toLowerCase` exactly when equal ignoring case |
| Browse.VendorMatchesSpec | frontend/script.js:67 | one vendor test throws exactly for a truthy non-string vendor, and otherwise passes exactly for a non-empty string vendor equal to the query ignoring case |
| Browse.VendorFilterSpec | frontend/script.js:65-68 | the vendor filter throws exactly when some product has a truthy non-string vendor; otherwise it keeps, in order, exactly the products whose vendor equals the query ignoring case |
| Browse.CategoryFilterSpec | frontend/script.js:75-77 | an active category keeps, in order, exactly the products whose category equals it, case-sensitively |
| Browse.ViewSpec | frontend/script.js:63-77 | without a vendor query and with no active category every product is shown; whether the view throws depends only on the vendor filter |
| Browse.PriceVersusTruthy | frontend/script.js:89 | every truthy price is shown, and of the falsy ones `0` and `false` are shown too |
| Browse.CardDefaults | frontend/script.js:90-116 | no card text is empty; image and link fall back along `image_url`, `image`, placeholder and `product_link`, `link`, `#`; a missing or empty name, description or category reads as its default |
| Browse.CatalogPage.Loaded | frontend/script.js:22-30 | the buttons are built, no category is active, and the first render is shown with the vendor notice set exactly when the vendor query is truthy, or the load-failure notice when it throws |
| Browse.CatalogPage.LoadFailed | frontend/script.js:141-145 | a failed request shows only the load-failure notice |
| Browse.CatalogPage.RenderProducts | frontend/script.js:62-132 | the container is replaced by the rendering of the filtered products and the vendor notice shows exactly when the vendor query is truthy; when the vendor filter throws nothing changes |
| Browse.CatalogPage.ShowProducts | frontend/script.js:79-131 | the container is cleared and then gets one card per product, in order, or the no-products notice alone when the list is empty |
| Browse.CatalogPage.ClickCategory | frontend/script.js:52-57 | that category becomes active and the products are rendered again, vendor notice included; when the filter throws the page is left as it was |
| Browse.CatalogPage.ClickAll | frontend/script.js:40-45 | no category is active and the products are rendered again, vendor notice included; when the filter throws the page is left as it was |
| Browse.AllRoundTrip | frontend/script.js:40-56 | clicking a category and then "All" restores exactly the container of the first render |

## Left out

- Network and parsing: `fetch`, `res.json()`, `response.ok` and the API hosts. A response is a parameter of `CompleteFetch` or of the `Loaded` constructor. A failed request is `FailFetch` or the `LoadFailed` constructor.
- A response body without `results`, or whose products are not an array. Reading it throws in the source; the model takes well-formed lists.
- Asynchronous interleaving and stale responses. Handlers run one at a time. A response is handled against the state at the time it arrives, as the source does, but responses are not matched to their requests.
- Reading the `vendor` parameter from the page's address: the vendor is a constructor parameter.
- DOM work: classes, colours, the switch highlight's position, and the card markup. What remains is the card list, the load-more and loading displays, the error text and the vendor banner of the simple page.
- The vendor banner of the paginated page (script.js:129-133): it is display only.
- The "Loading..." and "Load More" labels of the load-more button: they are display only.
- The paginated page's category buttons and their request (script.js:30-48, `fetchCategories`). Only their click handler is modelled, as `ChooseCategory`.
- The top-level `window.updateSwitch` (script.js:227-249). It is replaced by the inner one when the page loads, and the select it dispatches to has no listener.
- The initial display values of the loading message and load-more container. They come from the page markup and are constructor parameters.
- Browse.CardOf: the price is kept as the raw value. `parseFloat(...).toFixed(2)` is floating point.
- The image `onerror` swap, which is a browser event.
- Js.LowerChar: `toLowerCase` lower-cases ASCII letters only, not all of Unicode.
- Js.LexLe: the sort compares characters as code points, not UTF-16 code units.
- Js.JsValue: numbers are integers; fractions and NaN are left out. Object and array field values are left out too; `String(v)` of them is not modelled.
