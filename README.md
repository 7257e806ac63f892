# 3Deality storefront core, modelled in Dafny

This project models the logic core of the 3Deality storefront, a React/Next.js
shop for 3D-printed RC parts. The core has five parts:

- **The cart store** (`CartProvider` and `useCart`). It is a class holding the
  `cart` slot and the persisted storage entry. Its methods are `addItem`,
  `removeItem`, `updateQuantity` and `clearCart`, and each is proved equal to a
  pure function of the old cart. The two totals are `reduce` folds.
  - Adding merges into the first matching row. A row matches by id and, for a
    custom print, by print settings.
  - Removing is a filter. Updating is a guarded map.
  - Quantities stay at least 1 through any sequence of operations whose adds
    use at least 1, starting from a cart whose rows all hold at least 1 (as
    every cart the store itself builds does; a snapshot read from storage is
    taken as it is).
- **The breadcrumb trail.** The path splits into non-empty segments. Each
  crumb links to the prefix of the path up to its segment, and its label is the
  segment with hyphens turned into spaces and each word capitalised.
  - The links are pairwise distinct, each a proper prefix of the next.
  - The last link equals an independent character-level collapse of the path's
    slashes.
- **The product page.**
  - The catalogue lookup by id, and what the page shows for a missing or
    unknown id.
  - `parseInt` on exact integers: white space, sign, `0x` prefix, stop at
    the first non-digit, NaN. It reads back every decimal numeral.
  - The quantity selector is a class whose three handlers keep the quantity
    within `[1, stock]`.
  - The add-to-cart button calls the cart store.
  - The category link slug replaces only the first space.
- **The model uploader.**
  - The extension is the lower-cased text after the last dot, so the check
    ignores case.
  - The print-quality multiplier table defaults to 1.
  - A class holds the selected file, the chosen quality and the estimated
    price. Its handlers keep the estimate equal to the base price times the
    chosen multiplier, in exact arithmetic, across quality changes.
- **The products index.** Categories are de-duplicated in first-occurrence
  order (`Array.from(new Set(...))`). Each card's heading and description fall
  back from the label table, and each card links to `/products/<category>`.

JavaScript built-ins are modelled in `Strings` with their JavaScript meaning:
`split` (always at least one piece), `join`, `replace` with a string pattern
(first occurrence only) and with a global pattern, `toLowerCase` and
`toUpperCase`.

Files:
- `wrappers.dfy`: `Option` and `Result`.
- `strings.dfy`: the string built-ins and their split/join lemmas.
- `cart.dfy`: the cart store.
- `breadcrumbs.dfy`: the breadcrumb trail.
- `product_detail.dfy`: the product page.
- `file_uploader.dfy`: the model uploader.
- `products_index.dfy`: the products index.

## Model

| member | source | states |
|---|---|---|
| Strings.Split | src/components/Breadcrumbs.tsx:10 | `split` gives at least one piece and no piece contains the separator |
| Strings.JoinSplit | src/components/Breadcrumbs.tsx:9-16 | joining the pieces of a split with the same separator gives the string back |
| Strings.SplitJoin | src/components/Breadcrumbs.tsx:9-16 | splitting a join of separator-free pieces gives the pieces back |
| Strings.Join | src/components/Breadcrumbs.tsx:16 | `join` starts with the first piece and puts the separator right after it when there is a second; JoinSplit, SplitJoin and JoinSnoc fix its whole value |
| Strings.Last | src/components/FileUploader.tsx:89 | `pop()` gives one of the pieces, the only one when there is one; SplitLast says which piece of a split it is |
| Strings.SplitLast | src/components/FileUploader.tsx:89 | the last piece of a split (`pop()`) is a separator-free suffix: the whole string when there is one piece, otherwise the text right after the last separator |
| Strings.IndexOf | src/pages/ProductDetail.tsx:131 | the first position of a character, -1 exactly when it does not occur |
| Strings.ReplaceFirst | src/pages/ProductDetail.tsx:131 | `replace` with a string pattern changes only the first occurrence and keeps the length |
| Strings.ReplaceAll | src/components/Breadcrumbs.tsx:19 | `replace(/-/g, …)` changes every occurrence and nothing else |
| Strings.LowerString | src/components/FileUploader.tsx:89 | `toLowerCase` keeps the length and lowers each character |
| Strings.Upper | src/components/Breadcrumbs.tsx:20 | `toUpperCase` of one character raises `a`–`z` and keeps the rest |
| CartStore.FindIndex | src/contexts/CartContent.tsx:49-52 | the index of the first row matching the item by id and, for a custom print, by print settings; -1 exactly when no row matches |
| CartStore.Added | src/contexts/CartContent.tsx:47-65 | the cart grows by one row exactly when no row matches, that row being the item with `quantity`; every existing row keeps its item (AddedSpec gives the quantities) |
| CartStore.AddedSpec | src/contexts/CartContent.tsx:46-65 | with a match, the first matching row's quantity grows by `quantity` and every other row and the length are unchanged; without one, a row of the item with `quantity` is appended |
| CartStore.AddedCount | src/contexts/CartContent.tsx:46-65 | an add raises the item count by exactly `quantity` |
| CartStore.AddedTotal | src/contexts/CartContent.tsx:46-65 | an add raises the total by the merged row's own price times `quantity`, or by the item's price times `quantity` when appended |
| CartStore.MergedTotal | src/contexts/CartContent.tsx:54-59 | merging into row `k` raises the total by that row's price times `quantity` |
| CartStore.PlainAddMergesById | src/contexts/CartContent.tsx:49-52 | a plain item merges into the first row with its id whatever that row's print settings |
| CartStore.PrintSettingsPartition | src/contexts/CartContent.tsx:49-52 | adding a custom print of the same id as an existing row appends a second row exactly when its print settings differ, and otherwise merges into that row, for any settings |
| CartStore.Removed | src/contexts/CartContent.tsx:70 | the filter leaves no row with that id and never grows the cart |
| CartStore.RemovedMultiset | src/contexts/CartContent.tsx:70 | every row of another id is kept as often as it occurred, every row of that id is dropped |
| CartStore.RemovedAppend | src/contexts/CartContent.tsx:70 | removal distributes over concatenation, so the order of the kept rows is preserved |
| CartStore.RemovedNothing | src/contexts/CartContent.tsx:70 | removing an absent id leaves the cart as it is |
| CartStore.RemovedIdempotent | src/contexts/CartContent.tsx:68-74 | removing twice equals removing once |
| CartStore.SetQuantity | src/contexts/CartContent.tsx:80-82 | every row keeps its item; rows with that id take the new quantity, others keep theirs |
| CartStore.Updated | src/contexts/CartContent.tsx:76-83 | the length and every row's item are kept; rows of that id take the quantity when it is at least 1, every other quantity is unchanged |
| CartStore.Total | src/contexts/CartContent.tsx:92-94 | the total of an empty cart is 0 and it is never negative for non-negative prices and quantities |
| CartStore.TotalAppend | src/contexts/CartContent.tsx:92-94 | the total of a concatenation is the sum of the totals |
| CartStore.TotalAfterReplace | src/contexts/CartContent.tsx:92-94 | replacing one row changes the total by the difference of that row's amount |
| CartStore.Count | src/contexts/CartContent.tsx:96-98 | the count of an empty cart is 0 and is at least the number of rows when every quantity is positive |
| CartStore.CountAppend | src/contexts/CartContent.tsx:96-98 | the count of a concatenation is the sum of the counts |
| CartStore.CountAfterReplace | src/contexts/CartContent.tsx:96-98 | replacing one row changes the count by the difference in quantity |
| CartStore.ApplyKeepsPositive | src/contexts/CartContent.tsx:46-90 | add (with a quantity of at least 1), remove, update and clear keep every quantity at least 1 |
| CartStore.RunKeepsPositive | src/contexts/CartContent.tsx:46-90 | any sequence of such operations keeps every quantity at least 1 |
| CartStore.WidgetScenario | src/contexts/CartContent.tsx:46-98 | add 1 then 2 of a 100-paise item: one row of 3, total 300, count 3; updating to 0 changes nothing; removing empties the cart |
| CartStore.UseCart | src/contexts/CartContent.tsx:115-121 | outside a provider the hook fails with "useCart must be used within a CartProvider", inside it returns the context |
| CartStore.Load | src/contexts/CartContent.tsx:35-39 | the cart read at mount is the saved snapshot, or empty when nothing is saved |
| CartStore.CartProvider.constructor | src/contexts/CartContent.tsx:35-44 | the cart is the saved snapshot, or empty when the key is absent, and the save effect writes it back |
| CartStore.CartProvider.AddItem | src/contexts/CartContent.tsx:46-66 | the cart becomes the add of the old cart and the storage entry holds it |
| CartStore.CartProvider.RemoveItem | src/contexts/CartContent.tsx:68-74 | the cart becomes the filter of the old cart and the storage entry holds it |
| CartStore.CartProvider.UpdateQuantity | src/contexts/CartContent.tsx:76-84 | below 1 nothing changes; otherwise the rows of that id take the new quantity and the entry holds the cart |
| CartStore.CartProvider.ClearCart | src/contexts/CartContent.tsx:86-90 | the cart is empty and, once the save effect has run, the entry holds the empty cart |
| CartStore.CartProvider.GetCartTotal | src/contexts/CartContent.tsx:92-94 | the total of the current cart: 0 when empty, never negative for non-negative prices and quantities |
| CartStore.CartProvider.GetItemCount | src/contexts/CartContent.tsx:96-98 | the item count of the current cart: 0 when empty, at least the number of rows when every quantity is positive |
| Breadcrumbs.NonEmpty | src/components/Breadcrumbs.tsx:11 | the filter keeps only non-empty pieces, each taken from the input |
| Breadcrumbs.NonEmptyKeeps | src/components/Breadcrumbs.tsx:11 | every non-empty piece is kept |
| Breadcrumbs.NonEmptyAppend | src/components/Breadcrumbs.tsx:11 | the filter distributes over concatenation, so the kept pieces stay in order |
| Breadcrumbs.Segments | src/components/Breadcrumbs.tsx:9-11 | every segment is non-empty and contains no `/` |
| Breadcrumbs.RootHasNoCrumbs | src/components/Breadcrumbs.tsx:9-22 | the empty path and `/` have no segments and no crumbs |
| Breadcrumbs.Crumbs | src/components/Breadcrumbs.tsx:14-22 | one crumb per segment, each label as long as its segment |
| Breadcrumbs.Href | src/components/Breadcrumbs.tsx:16 | a link starts with `/` and ends with its own segment |
| Breadcrumbs.Label | src/components/Breadcrumbs.tsx:18-20 | the label is as long as the segment (LabelAt gives each character) |
| Breadcrumbs.CrumbsFollowSegments | src/components/Breadcrumbs.tsx:14-22 | one crumb per segment, in order, each with the prefix link and the segment's label |
| Breadcrumbs.HrefStep | src/components/Breadcrumbs.tsx:16 | each link is the previous link, then `/`, then the next segment |
| Breadcrumbs.HrefPrefix | src/components/Breadcrumbs.tsx:16 | each link is a proper prefix of every later link |
| Breadcrumbs.HrefsDistinct | src/components/Breadcrumbs.tsx:30-31 | the links of one trail, used as list keys, are pairwise distinct |
| Breadcrumbs.SegmentsSlash | src/components/Breadcrumbs.tsx:9-11 | a leading slash adds no segment |
| Breadcrumbs.SqueezeJoins | src/components/Breadcrumbs.tsx:9-16 | the character-level slash collapse writes exactly the segments joined by `/` |
| Breadcrumbs.LastHrefIsCollapsed | src/components/Breadcrumbs.tsx:16 | the last crumb links to the whole path with leading, trailing and repeated slashes collapsed |
| Breadcrumbs.CollapsedExample | src/components/Breadcrumbs.tsx:16 | `//a///b/` collapses to `/a/b` |
| Breadcrumbs.TitleCase | src/components/Breadcrumbs.tsx:20 | title casing keeps the length |
| Breadcrumbs.TitleCaseAt | src/components/Breadcrumbs.tsx:20 | a word character that begins a word (`\b\w`) is upper-cased, every other character is kept |
| Breadcrumbs.LabelAt | src/components/Breadcrumbs.tsx:18-20 | the label has the segment's length; a hyphen becomes a space, a word start is upper-cased, all else is kept |
| ProductDetail.FindIndex | src/pages/ProductDetail.tsx:65 | `find` stops at the first product with the id, -1 exactly when none has it |
| ProductDetail.GetProductById | src/pages/ProductDetail.tsx:13-66 | nothing exactly when no catalogue entry has the id; otherwise a catalogue entry with that id |
| ProductDetail.CatalogLookup | src/pages/ProductDetail.tsx:13-66 | ids "1" and "2" find the wing (stock 15) and the frame (stock 8); every other id finds nothing |
| ProductDetail.PageFor | src/pages/ProductDetail.tsx:73-93 | an absent or empty id shows the missing-id message, an unknown id "not found", a known id its product |
| ProductDetail.TrimStart | src/pages/ProductDetail.tsx:100 | `parseInt` skips the leading run of white space: every dropped character is white space and the rest is a suffix not starting with white space |
| ProductDetail.DigitRun | src/pages/ProductDetail.tsx:100 | reading stops at the first non-digit: the run holds only digits and the next character is none |
| ProductDetail.ParseInt | src/pages/ProductDetail.tsx:100 | text that is empty after white space is NaN; a negative result needs a leading `-`, and a leading `-` never gives a positive result |
| ProductDetail.ValueShow | src/pages/ProductDetail.tsx:100 | the decimal value of a numeral's digits is its number |
| ProductDetail.ReadShow | src/pages/ProductDetail.tsx:100 | the digit reader gives back the number of any decimal numeral |
| ProductDetail.ParseShow | src/pages/ProductDetail.tsx:100 | `parseInt` of a decimal numeral is its number |
| ProductDetail.ParseShowNegated | src/pages/ProductDetail.tsx:100 | `parseInt` of `-` and a numeral is the negated number |
| ProductDetail.ParseNaN | src/pages/ProductDetail.tsx:100-101 | the empty text and a lone sign after white space are NaN |
| ProductDetail.Step | src/pages/ProductDetail.tsx:99-118 | one event keeps a quantity in `[1, stock]` there, and changes it only by one step of `+`/`-` or to the typed value as read by `parseInt` |
| ProductDetail.Steps | src/pages/ProductDetail.tsx:99-118 | from a quantity in `[1, stock]`, n presses of `+` reach the smaller of quantity + n and the stock, n presses of `-` the larger of quantity - n and 1 |
| ProductDetail.StepsStayInRange | src/pages/ProductDetail.tsx:99-118 | from a quantity in `[1, stock]`, any sequence of typed values and `+`/`-` presses stays in `[1, stock]` |
| ProductDetail.ProductPage.constructor | src/pages/ProductDetail.tsx:70 | the quantity starts at 1, inside the range when something is in stock |
| ProductDetail.ProductPage.HandleQuantityChange | src/pages/ProductDetail.tsx:99-104 | a typed value is taken only when it parses to an integer in `[1, stock]`; the range is kept |
| ProductDetail.ProductPage.IncrementQuantity | src/pages/ProductDetail.tsx:106-112 | one more below the stock, otherwise unchanged with the maximum reported; the range is kept |
| ProductDetail.ProductPage.DecrementQuantity | src/pages/ProductDetail.tsx:114-118 | one fewer above 1, otherwise unchanged; the range is kept |
| ProductDetail.ProductPage.ClickAddToCart | src/pages/ProductDetail.tsx:95-97 | with stock, the cart becomes the add of the product at the selected quantity; with stock 0 the disabled button changes nothing |
| ProductDetail.AsCartItem | src/pages/ProductDetail.tsx:96 | the product enters the cart as a plain item with its id and price and no print settings, so it merges by id (PlainAddMergesById) |
| ProductDetail.LowerKeepsSpaces | src/pages/ProductDetail.tsx:131 | lower-casing does not move the first space |
| ProductDetail.SlugAt | src/pages/ProductDetail.tsx:131 | the slug keeps the category's length; only the first space becomes `-`, every other character is lower-cased |
| ProductDetail.CategorySlug | src/pages/ProductDetail.tsx:131 | the slug keeps the category's length and has `-` where the category's first space was |
| FileUploader.Extension | src/components/FileUploader.tsx:89 | the extension is no longer than the name and contains no dot |
| FileUploader.ExtensionAfterLastDot | src/components/FileUploader.tsx:89 | the extension is the lower-cased text after the last dot; a name without a dot is its own extension |
| FileUploader.ExtensionOf | src/components/FileUploader.tsx:89 | whatever precedes the last dot, the extension is the lower-cased text after it |
| FileUploader.CaseInsensitive | src/components/FileUploader.tsx:88-91 | a file is accepted exactly when its lower-cased extension is a supported format |
| FileUploader.AcceptsUpperCase | src/components/FileUploader.tsx:88-91 | `PART.STL` is accepted |
| FileUploader.RefusesOtherFormats | src/components/FileUploader.tsx:88-91 | `model.gcode` is refused |
| FileUploader.BareExtension | src/components/FileUploader.tsx:89-91 | a dotless name is judged whole: `stl` is accepted |
| FileUploader.NoExtension | src/components/FileUploader.tsx:89-91 | `README` is refused |
| FileUploader.IsSupported | src/components/FileUploader.tsx:88-91 | a name is accepted exactly when its extension is a supported format (the separate non-empty test is implied), so an accepted extension has 3 or 4 characters |
| FileUploader.OptionIndex | src/components/FileUploader.tsx:95 | `find` stops at the first option with the id, -1 exactly when none has it |
| FileUploader.Multiplier | src/components/FileUploader.tsx:95-96 | every multiplier, including the default 1 for an unknown id, lies in `[0.9, 1.6]` |
| FileUploader.MultiplierTable | src/components/FileUploader.tsx:17-48 | the five qualities give 1.0, 1.3, 1.6, 1.2 and 0.9 |
| FileUploader.MultiplierPositive | src/components/FileUploader.tsx:95-96 | an unknown id gives 1, and every multiplier lies in `[0.9, 1.6]` |
| FileUploader.Rebased | src/components/FileUploader.tsx:124 | a positive estimate re-bases to a positive price; without an estimate, or with a zero one, the base falls back to 500 (RebasedPriceFor gives the inverse) |
| FileUploader.RebasedPriceFor | src/components/FileUploader.tsx:124-126 | dividing an estimate by its quality's multiplier gives back its positive base price |
| FileUploader.Uploader.constructor | src/components/FileUploader.tsx:51-57 | no file, no estimate, quality "standard" |
| FileUploader.Uploader.HandleFile | src/components/FileUploader.tsx:87-102 | a supported file is selected and priced at base times multiplier; any other leaves file and estimate unchanged and is reported |
| FileUploader.Uploader.CalculatePrice | src/components/FileUploader.tsx:108-118 | without a file nothing changes; with one the estimate is the fresh base times the multiplier |
| FileUploader.Uploader.HandlePrintQualityChange | src/components/FileUploader.tsx:120-128 | the quality changes; with a file, the estimate is re-based and priced at the new multiplier, which leaves it at the same base price times the new multiplier |
| FileUploader.Uploader.HandleAddToCart | src/components/FileUploader.tsx:130-137 | refused unless a file and a non-zero estimate exist; changes no state; always accepted once a file has been priced |
| ProductsIndex.Dedup | src/pages/products/index.tsx:7 | the same elements as the input, none twice, never longer |
| ProductsIndex.DedupOrder | src/pages/products/index.tsx:7 | the result keeps first-occurrence order |
| ProductsIndex.FirstIndex | src/pages/products/index.tsx:7 | the first position of an element, -1 exactly when absent |
| ProductsIndex.FirstIndexPrefix | src/pages/products/index.tsx:7 | appending an element does not move any earlier first occurrence |
| ProductsIndex.CategoryList | src/pages/products/index.tsx:7 | the map gives each product's category at its position |
| ProductsIndex.Categories | src/pages/products/index.tsx:7 | no category is listed twice and there are never more categories than products |
| ProductsIndex.CategoriesOfProducts | src/pages/products/index.tsx:7 | every product's category is listed, nothing else is, none twice |
| ProductsIndex.SampleCategoryList | src/pages/products/index.tsx:7 | the sample products map to plane-kits, plane-kits, fpv-parts |
| ProductsIndex.DedupRepeated | src/pages/products/index.tsx:7 | a repeated category is listed once |
| ProductsIndex.SampleCategories | src/pages/products/index.tsx:7 | the sample products give `["plane-kits", "fpv-parts"]` |
| ProductsIndex.Heading | src/pages/products/index.tsx:46 | a labelled category shows its label; otherwise the heading keeps the length and has no hyphen |
| ProductsIndex.HeadingFallback | src/pages/products/index.tsx:46 | without a label each hyphen becomes a space and every other character is kept |
| ProductsIndex.Description | src/pages/products/index.tsx:49 | "Explore " followed by the label or the raw category, of matching length |
| ProductsIndex.DescriptionAt | src/pages/products/index.tsx:49 | after "Explore " each character is lower-cased; without a label the category's hyphens survive |
| ProductsIndex.Href | src/pages/products/index.tsx:31 | the link is `/products/` followed by the category |
| ProductsIndex.HrefInjective | src/pages/products/index.tsx:30-31 | two categories share a link exactly when they are equal |
| ProductsIndex.Cards | src/pages/products/index.tsx:28-51 | one card per category (CardsFollowCategories gives each card's contents) |
| ProductsIndex.CardsFollowCategories | src/pages/products/index.tsx:28-51 | card i carries the link `/products/<category i>`, the heading and the description of category i, in category order |
| ProductsIndex.CardLinksDistinct | src/pages/products/index.tsx:30-31 | the cards' links are pairwise distinct, because their categories are; the list keys (the categories) are distinct by `Categories` |
| ProductsIndex.SampleHeadings | src/pages/products/index.tsx:10-14 | the sample categories are headed "Plane Kits" and "FPV Parts" |
| ProductsIndex.SampleDescription | src/pages/products/index.tsx:49 | `fpv-parts` is described as "Explore fpv parts" |
| ProductsIndex.LowerLabel | src/pages/products/index.tsx:49 | "FPV Parts" lower-cases to "fpv parts" |
| ProductsIndex.UnlabelledHeading | src/pages/products/index.tsx:46 | an unlabelled `rc-cars` is headed "rc cars" |
| ProductsIndex.UnlabelledDescription | src/pages/products/index.tsx:49 | an unlabelled `rc-cars` is described as "Explore rc-cars" |

## Left out

- Rendering, styling and routing: JSX and every presentational page (`App.tsx`, `_app.tsx`, the home page, `UploadModel.tsx`, `HeroSection.tsx`, `CategorySection.tsx`, `FeaturedProducts.tsx`, `ProductCard.tsx`, `CategoryPage.tsx`). They hold no logic beyond static data.
- `Navbar.tsx`: DOM scrolling, timers and router pushes.
- Payment (`razorpay.ts`, `razorpayUtils.ts`, `handleCheckout` in `Cart.tsx`): script injection and a foreign payment widget.
- Mocked services with timeouts (`TrackOrder.tsx`, `SignIn.tsx`, `GoogleReviews.tsx`, `api/quote.ts`, `api/products.ts`): I/O.
- The button wiring in `Cart.tsx`. It calls the store with `Math.max(1, q - 1)`; it is a caller of the store.
- Toast notifications. Handlers return a flag where the choice of toast matters: `IncrementQuantity` reports the maximum, and `HandleFile` and `HandleAddToCart` report acceptance.
- React scheduling. Each store operation is one atomic step, and the save effect is folded into it. The updater of `addItem` bumps the shared row object in place (`CartContent.tsx:57`), so a second run of the updater would add twice; the model does not capture this aliasing.
- JSON and `localStorage`. The storage entry is the cart value itself. Corrupt stored text makes `JSON.parse` throw when the provider mounts (`CartContent.tsx:38`), and that error path is not modelled.
- `JSON.stringify` comparison of print settings is modelled as structural equality. No caller in the source builds print settings, and the settings type fixes no key order at run time: two settings objects with equal fields in a different key order would take two rows on the page and one row in the model. `JSON.stringify` also writes NaN, Infinity and -Infinity all as `null` and drops keys whose value is `undefined`, so settings differing only there would merge on the page. The model types the rotations as integers and every field as present, which rules those values out.
- `ProductDetail.ParseInt`: returns the exact integer. JavaScript's `parseInt` returns a double, so a numeral past 2^53 is rounded (`"9007199254740993"` reads as 9007199254740992). The range test at `ProductDetail.tsx:101` against a stock of 15 or 8 is unaffected.
- `CartStore.Total`: prices are whole paise (149999 for 1499.99). Floating-point rounding of price times quantity is not modelled.
- `ProductDetail.AsCartItem`: `addItem(product, quantity)` spreads the whole product into the cart row. The description, specifications, features and stock it carries along are not modelled, and neither are the catalogue's display texts.
- `Strings.LowerString`: ASCII letters only. The catalogue categories and labels are ASCII, but a file extension with non-ASCII capitals would be lowered by the page and not by the model.
- `FileUploader.Uploader.HandleFile`: the random base price (`Math.floor(Math.random() * 1000) + 500`) is a parameter in `[500, 1500)`. Prices are exact reals, so floating-point rounding of the multiplication and of the back-division on a quality change is not modelled. The name and description of each quality option are display text and are left out.
- The drag-and-drop state and the rotation and unit inputs of the uploader: display state not read by the modelled handlers.
- `ProductsIndex.Heading`: `labels[cat]` on a plain object would also find inherited keys such as `constructor`. The label table is modelled as a map holding only its two entries.
- A `File` is modelled by its name; nothing else about the file is read.
