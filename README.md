# A verified model of the storefront's display and query logic

This project models, in Dafny, the small pieces of logic of a hardware-store
storefront (a Next.js site over a hosted database) that do more than render
markup. It proves properties about them.

- **Product carousels.** The paint (`TintasCarousel`), offers (`OffersCarousel`)
  and electrical (`EletricosCarousel`) rows share one engine (`Carousel`):
  - the display list repeats the products until it fills two screens;
  - the index bounds are capped at nine stops;
  - the index wraps around on "next", "previous", the auto-advance interval and
    the indicator dots;
  - the auto-play, hover and pending-resume state decides whether the interval runs.
- **Banner carousel** (`BannerCarousel`): the banners shown are the active ones,
  stably sorted by `ordem`. The slideshow state is a class.
- **Per-card helpers** (`ProductCard`):
  - the image URL resolver, one definition parameterised by its two variants;
  - the four-word name abbreviation;
  - the discount badge guard.
- **Countdown** (`Countdown`): the millisecond difference is split into days,
  hours, minutes and seconds. The model covers the expired state, the text
  shown before mounting, and the zero-padded clock.
- **API routes:**
  - `ProductsRoute`: parameter defaults, the comma-separated id list, filter
    precedence, the query built step by step, the page window, pagination and
    the error response;
  - `CategoriesRoute`: the active-subcategory filter;
  - `SubcategoriesRoute`: the numeric guard and the `total` field;
  - `SalespeopleRoute`: the store filter and the two example-data fallbacks.
- **The store/salesperson popup** (`ContactPopup`): its state machine, the
  fetch fallbacks, the chat link (with `encodeURIComponent` in `UriComponent`),
  and the phone display.
- **Pages and site chrome:**
  - `SubcategoriesPage`: grouping by category, the product map and its counts;
  - `ProductsPage`: `URLSearchParams` as a class, the forwarded-parameter
    whitelist and the heading;
  - `Header`: the category menus, the eight-item cap, links, scroll and search;
  - `Footer`: the case-insensitive icon lookup, logo selection and the
    `fetchDados` state updates.

Shared modules:

| module | what it holds |
|---|---|
| `Text` | JavaScript string semantics the code relies on: `split`, `join`, `trim`, `toLowerCase`, `padStart`, `slice`, decimal rendering and `parseInt` |
| `QueryString` | `URLSearchParams.get` and the reading of a query string |
| `Seqs` | `filter` and `slice(0, n)` |
| `Catalog` | the records and the outcomes of a fetch or a database query |
| `Arith` | two facts about multiplication and division |

**How the model represents the outside world:**
- **Fetches** are inputs (`Fetched<T>`: not OK, thrown, or a body).
- **Database queries** are inputs too (`Queried<T>`: error, thrown, or rows).
- **Query builders** are lists of abstract steps; a predicate `Holds` gives each
  filter step its meaning.
- **Timers** are explicit events:
  - `Tick` is one firing of an interval;
  - `FireResume` is one firing of a "resume auto-play" timeout.

  Because the code never cancels those timeouts, the model only counts how many
  are pending.
- **The clock** (`now`) and the end date are integer milliseconds passed in.
- **The storage base URL** is an `Option<string>` parameter.

Where the code and its written description disagree, the model follows the code:
- `goToSlide` sets the index without clamping.
- Resume timeouts are never cancelled or superseded.
- The carousels have no swipe handlers.
- The products route's `total` counts rows by status only (see Findings).
- The popup keeps its view and store selection after a salesperson is chosen (see Findings).

## Model

Source paths are relative to the repository root.

| member | source | states |
|---|---|---|
| ProductCard.StripLeadingSlash | src/components/ui/TintasCarousel.tsx:41-43 | exactly one leading "/" is removed, and nothing else changes |
| ProductCard.ResolveFallbacks | src/components/ui/TintasCarousel.tsx:19-39 | a missing or empty path gives the placeholder; so does a relative path with no storage base URL; an absolute URL is returned unchanged |
| ProductCard.ResolveRelativeRoundTrip | src/components/ui/TintasCarousel.tsx:33-46 | a relative path with a base URL resolves to a storage URL whose object path reads back as the path without its one leading "/" |
| ProductCard.StoredObject | src/components/ui/TintasCarousel.tsx:45 | the object path is what follows the base URL and the storage prefix, and re-attaching both gives back the URL |
| ProductCard.ResolveIdempotent | src/components/ui/EletricosCarousel.tsx:15-38 | resolving an already resolved storage URL again returns it unchanged, when that URL counts as absolute for the resolver variant |
| ProductCard.SchemePrefixIsStricter | src/components/ui/EletricosCarousel.tsx:22-24 | every path the `http://`/`https://` test accepts, the looser `"http"` prefix test accepts too |
| ProductCard.ResolverVariantsDisagree | src/components/ui/EletricosCarousel.tsx:22-24 | a relative object name beginning with "http" passes through the loose variant but becomes a storage URL in the strict one |
| ProductCard.AbbreviateShortName | src/components/ui/TintasCarousel.tsx:96-100 | a name of at most four space-separated pieces comes back unchanged |
| ProductCard.AbbreviateIsPrefix | src/components/ui/TintasCarousel.tsx:96-100 | the abbreviation is a prefix of the name |
| ProductCard.AbbreviateWords | src/components/ui/EletricosCarousel.tsx:85-89 | the abbreviation's pieces are exactly the first min(4, n) pieces of the name |
| ProductCard.AbbreviateIdempotent | src/app/produtos/page.tsx:64-68 | abbreviating twice is abbreviating once |
| ProductCard.RoundedPercent | src/components/ui/OffersCarousel.tsx:307-314 | for a positive or a negative list price, the percentage is the nearest integer to 100·(list − sale)/list, with ties rounded up; a list price of 0 gives 0 |
| ProductCard.NegativeListPriceBadge | src/components/ui/OffersCarousel.tsx:307-314 | a list price of −10 with a sale price of 5 gives 150 |
| ProductCard.DiscountBadgeIff | src/components/ui/OffersCarousel.tsx:307-329 | the badge shows exactly for a product on this month's promotion with a truthy sale price at least half a percent below a positive list price, or at least half a percent above a negative one |
| ProductCard.DiscountInRange | src/app/produtos/page.tsx:267-274 | a sale price between 0 and the list price gives a discount between 0 and 100 |
| Carousel.Repeat | src/components/ui/TintasCarousel.tsx:148-150 | k copies have k times the length |
| Carousel.RepeatElements | src/components/ui/TintasCarousel.tsx:148-150 | position i of the repeated list holds product i mod n |
| Carousel.CopiesNeeded | src/components/ui/TintasCarousel.tsx:143-150 | the copy count is the least k ≥ 1 whose total length reaches the minimum |
| Carousel.CopiesNeededUnique | src/components/ui/TintasCarousel.tsx:143-150 | those two conditions determine the copy count |
| Carousel.BuildDisplayList | src/components/ui/TintasCarousel.tsx:140-152 | the duplication loop returns the display list: empty for no products, otherwise whole copies of the products |
| Carousel.DisplayListShape | src/components/ui/OffersCarousel.tsx:130-142 | the display list is k whole copies of the products; its length is at least two screens and less than two screens plus one copy; position i holds product i mod n |
| Carousel.DisplayListLongInput | src/components/ui/TintasCarousel.tsx:140-152 | products that already fill two screens are shown as they are |
| Carousel.EletricosFewProducts | src/components/ui/EletricosCarousel.tsx:126-148 | fewer than four electrical products are shown without duplication, and the carousel has a single stop |
| Carousel.StopCount | src/components/ui/TintasCarousel.tsx:154-157 | the number of stops and dots lies between 1 and 9 |
| Carousel.LastIndex | src/components/ui/TintasCarousel.tsx:154-158 | the last stop is min(max(0, len − visible), 8), one below the stop count, and at most 8 |
| Carousel.StepsStayInRange | src/components/ui/TintasCarousel.tsx:277-284 | next, previous and a dot jump keep the index within [0, last] |
| Carousel.PrevNextInverse | src/components/ui/OffersCarousel.tsx:196-203 | "previous" undoes "next" and "next" undoes "previous" |
| Carousel.DotsReachTheirStop | src/components/ui/TintasCarousel.tsx:467-474 | every rendered dot moves the index to its own stop |
| Carousel.NextNBeforeWrap | src/components/ui/TintasCarousel.tsx:249-257 | before the wrap, n ticks add n to the index |
| Carousel.NextNAdd | src/components/ui/TintasCarousel.tsx:249-257 | n + m ticks are n ticks followed by m ticks |
| Carousel.NextCycle | src/components/ui/TintasCarousel.tsx:249-257 | the auto-advance returns to its start after exactly last + 1 ticks, and not sooner |
| Carousel.NextNAfterWrap | src/components/ui/TintasCarousel.tsx:249-257 | past the wrap, last − i + 1 + k ticks from i land on k |
| Carousel.ViewOf | src/components/ui/OffersCarousel.tsx:211-260 | the track is rendered exactly when loading has finished with products; the offers row shows its empty state exactly when loading has finished with none |
| Carousel.ProductCarousel.constructor | src/components/ui/TintasCarousel.tsx:127-152 | index 0, auto-play on, not hovered, no pending resume, and the display list built from the products |
| Carousel.ProductCarousel.Tick | src/components/ui/TintasCarousel.tsx:241-257 | when the interval runs (auto-play on, controls shown, not hovered where hovering pauses) the index steps to next; otherwise nothing changes |
| Carousel.ProductCarousel.MoveNext | src/components/ui/TintasCarousel.tsx:277-288 | fired only while the arrows are rendered (line 327): the index steps to next; auto-play goes off; one more resume is pending |
| Carousel.ProductCarousel.MovePrev | src/components/ui/EletricosCarousel.tsx:208-220 | fired only while the arrows are rendered (line 243): the index steps to previous; auto-play goes off; one more resume is pending |
| Carousel.ProductCarousel.ClickDot | src/components/ui/OffersCarousel.tsx:433-441 | fired only while the dots are rendered: the index becomes the dot's stop; auto-play goes off; one more resume is pending |
| Carousel.ProductCarousel.MouseEnter | src/components/ui/TintasCarousel.tsx:312 | the carousel counts as hovered only where hovering pauses it; the index and auto-play are unchanged |
| Carousel.ProductCarousel.MouseLeave | src/components/ui/EletricosCarousel.tsx:241 | the carousel is no longer hovered; the index and auto-play are unchanged |
| Carousel.ProductCarousel.FireResume | src/components/ui/TintasCarousel.tsx:288 | the oldest pending timeout turns auto-play on and leaves one fewer pending |
| Carousel.EarlyResume | src/components/ui/OffersCarousel.tsx:205-207 | after two quick clicks, the first timeout turns auto-play on while the second click's timeout is still pending |
| BannerCarousel.Insert | src/components/ui/BannerCarousel.tsx:35 | insertion adds one banner |
| BannerCarousel.InsertPermutes | src/components/ui/BannerCarousel.tsx:35 | insertion gives a permutation of the list plus the banner |
| BannerCarousel.SortByOrdem | src/components/ui/BannerCarousel.tsx:35 | the sort keeps the length |
| BannerCarousel.SortPermutes | src/components/ui/BannerCarousel.tsx:35 | the sort gives a permutation of its input |
| BannerCarousel.InsertSorted | src/components/ui/BannerCarousel.tsx:35 | inserting into a sorted list keeps it sorted by `ordem` |
| BannerCarousel.SortSorted | src/components/ui/BannerCarousel.tsx:35 | the sort's output is sorted by `ordem` |
| BannerCarousel.SortStable | src/components/ui/BannerCarousel.tsx:35 | banners with equal `ordem` keep their relative order |
| BannerCarousel.ActiveBannersSpec | src/components/ui/BannerCarousel.tsx:33-35 | the shown banners are exactly the active ones (as a multiset), come from the data, are sorted by `ordem`, and keep input order among equal `ordem` |
| BannerCarousel.SlideStepsInverse | src/components/ui/BannerCarousel.tsx:62-72 | with at least one banner, both arrows stay on a banner and undo each other |
| BannerCarousel.Slideshow.constructor | src/components/ui/BannerCarousel.tsx:19-22 | no banners, index 0, auto-play on, loading |
| BannerCarousel.Slideshow.Loaded | src/components/ui/BannerCarousel.tsx:25-46 | a body sets the banners to the active ones sorted by `ordem`; an exception keeps the old list; loading ends either way |
| BannerCarousel.Slideshow.Tick | src/components/ui/BannerCarousel.tsx:49-56 | with auto-play on and more than one banner, the index steps to next; otherwise nothing changes |
| BannerCarousel.Slideshow.GoToPrevious | src/components/ui/BannerCarousel.tsx:62-66 | the index steps back with wrap-around; auto-play goes off; one more resume is pending |
| BannerCarousel.Slideshow.GoToNext | src/components/ui/BannerCarousel.tsx:68-72 | the index steps forward with wrap-around; auto-play goes off; one more resume is pending |
| BannerCarousel.Slideshow.GoToSlide | src/components/ui/BannerCarousel.tsx:74-78 | the index becomes the dot's number, unclamped; auto-play goes off; one more resume is pending |
| BannerCarousel.Slideshow.FireResume | src/components/ui/BannerCarousel.tsx:65 | the oldest pending timeout turns auto-play on |
| BannerCarousel.OneOpaqueBanner | src/components/ui/BannerCarousel.tsx:131-136 | with banners to show, the slides whose class is `opacity-100` are exactly the current one, so exactly one slide is visible |
| Countdown.Decompose | src/components/ui/CountdownTimer.tsx:39-48 | the fields are in range (hours < 24, minutes and seconds < 60), and they recompose to within one second below the difference |
| Countdown.DecomposeBounds | src/components/ui/CountdownTimer.tsx:41-46 | the div/mod fields are within range and recompose to the difference minus its sub-second remainder |
| Countdown.DecomposeUnique | src/components/ui/CountdownTimer.tsx:41-46 | any in-range decomposition within one second below the difference is the one computed |
| Countdown.DecomposeWholeSeconds | src/components/ui/CountdownTimer.tsx:41-46 | the decomposition is the difference rounded down to whole seconds |
| Countdown.DecomposeMonotone | src/components/ui/CountdownTimer.tsx:41-46 | less time left never shows more time |
| Countdown.Calculate | src/components/ui/CountdownTimer.tsx:34-53 | expired exactly when the difference is not positive (or the date is invalid), with all fields 0; otherwise an in-range decomposition of the difference |
| Countdown.ExpiredStaysExpired | src/components/ui/CountdownTimer.tsx:49-51 | once expired, a later clock is still expired |
| Countdown.Pad2RoundTrip | src/components/ui/CountdownTimer.tsx:120-122 | a field below 100 is padded to two digits that read back as the number |
| Countdown.ClockRoundTrip | src/components/ui/CountdownTimer.tsx:119-123 | the clock is 8 characters and splits at its colons into the three padded fields, which read back as hours, minutes and seconds |
| Countdown.DaysShownIff | src/components/ui/CountdownTimer.tsx:116-118 | the counter mentions days exactly when days are left |
| Countdown.CountdownTimer.constructor | src/components/ui/CountdownTimer.tsx:22-29 | all fields zero, not expired, not mounted, and the "00:00:00" placeholder is shown |
| Countdown.CountdownTimer.Refresh | src/components/ui/CountdownTimer.tsx:34-53 | the new time left and expired flag are the computed reading for the clock |
| Countdown.CountdownTimer.Start | src/components/ui/CountdownTimer.tsx:31-62 | the timer is mounted and computed at once; it renders nothing exactly when expired, otherwise the counter text |
| ProductsRoute.Defaults | src/app/api/produtos/route.ts:16-21 | without the parameters the status is "ativo", the page 1 and the limit 12 |
| ProductsRoute.ParseIds | src/app/api/produtos/route.ts:72-75 | parsing never yields more ids than pieces |
| ProductsRoute.RenderIds | src/app/api/produtos/route.ts:72-75 | each id is rendered as its decimal string |
| ProductsRoute.ParseRenderedIds | src/app/api/produtos/route.ts:72-75 | rendered ids parse back to the same ids |
| ProductsRoute.IdListRoundTrip | src/app/api/produtos/route.ts:71-79 | every comma-joined list of ids, the empty one included, is split, trimmed and parsed back to those ids |
| ProductsRoute.PageRange | src/app/api/produtos/route.ts:20-22 | the range has numeric ends exactly when page and limit are numbers; it then spans `limit` rows, and from page 1 on with a positive limit it starts at a row index ≥ 0 |
| ProductsRoute.PageRangesAdjacent | src/app/api/produtos/route.ts:22 | page 1's range starts at row 0, and each page's range starts right after the previous page's last row |
| ProductsRoute.RangeRows | src/app/api/produtos/route.ts:96 | a range returns no more rows than it spans |
| ProductsRoute.Page | src/app/api/produtos/route.ts:20-22 | a page, the rows inside its range, holds at most `limit` rows |
| ProductsRoute.HandlerListsPage | src/app/api/produtos/route.ts:20-96 | for a page from 1 on and a positive limit, the query the handler sends ends in its range and lists exactly that page of its matching rows |
| ProductsRoute.BuildQuery | src/app/api/produtos/route.ts:25-96 | the step-by-step reassignments of `query` build the status filter, the flags, the selection and the page range, in the handler's order |
| ProductsRoute.AddFlagFilters | src/app/api/produtos/route.ts:45-59 | the four `=== "true"` tests append exactly the flag steps |
| ProductsRoute.AddSelectionFilters | src/app/api/produtos/route.ts:61-93 | the search, subcategory and category tests append exactly the selection steps |
| ProductsRoute.AddSubcategorySets | src/app/api/produtos/route.ts:71-93 | the id list, or else the category's active subcategories, is appended as the listing's one id-set filter |
| ProductsRoute.QueryEnds | src/app/api/produtos/route.ts:40-96 | the query starts with the status filter and ends with the page range |
| ProductsRoute.FlagFilter | src/app/api/produtos/route.ts:45-59 | each flag filter is in the query exactly when its parameter is the string "true" |
| ProductsRoute.SubcategoryOverridesCategory | src/app/api/produtos/route.ts:82 | once a subcategory parameter is given, the category lookup's answer does not affect the query |
| ProductsRoute.EmptyCategoryUnrestricted | src/app/api/produtos/route.ts:89-92 | a category with no active subcategory adds no restriction and no id-set filter |
| ProductsRoute.Window | src/app/api/produtos/route.ts:96 | the range returns at most `limit` rows, namely the matching rows from the offset on |
| ProductsRoute.PageSize | src/app/api/produtos/route.ts:20-22 | page p holds `limit` rows while p·limit rows exist, the rest of the rows on the last page, and none beyond it |
| ProductsRoute.PagesTile | src/app/api/produtos/route.ts:22 | consecutive pages, read through their ranges, follow each other with no gap and no overlap |
| ProductsRoute.WindowsAdjacent | src/app/api/produtos/route.ts:96 | two windows side by side read as one |
| ProductsRoute.PageIsWindow | src/app/api/produtos/route.ts:22 | page k is the `limit` rows after the first (k − 1)·limit |
| ProductsRoute.FirstPagesPrefix | src/app/api/produtos/route.ts:20-22 | pages 1 to k, one after the other, are the first k·limit rows |
| ProductsRoute.PagesCoverListing | src/app/api/produtos/route.ts:114 | with a count equal to the rows, the first `totalPages` pages hold exactly the rows, in order |
| ProductsRoute.CeilDiv | src/app/api/produtos/route.ts:114 | the page count is the least n with n·limit ≥ total |
| ProductsRoute.HasNextIff | src/app/api/produtos/route.ts:114-124 | hasNext holds exactly when the page is a number and rows remain after it; hasPrev holds exactly when the page is a number > 1 |
| ProductsRoute.Respond | src/app/api/produtos/route.ts:98-133 | a query error or an exception gives 500 with the generic message; otherwise the rows are returned with the pagination block for the page (null when NaN), the limit and the count, a missing count taken as 0 |
| ProductsRoute.RespondNavigation | src/app/api/produtos/route.ts:108-124 | a response offers a next page exactly when the page is a number and fewer than the counted rows lie before the next page, and a previous page exactly when the page is a number > 1; a NaN page offers neither, and a missing count offers no next page from page 0 on |
| ProductsRoute.CountBoundsListing | src/app/api/produtos/route.ts:108-112 | the listing never matches more rows than the count, as written, counts |
| ProductsRoute.TotalIgnoresFilters | src/app/api/produtos/route.ts:108-125 | as written, a promotions listing of one row per page, over one promoted and one regular product, counts 2 rows and offers a next page, but page 2 holds no row |
| ProductsRoute.CorrectedCountMatchesListing | src/app/api/produtos/route.ts:108-112 | a count with the listing's own filters counts exactly the rows the listing pages through |
| ProductsRoute.CorrectedHasNext | src/app/api/produtos/route.ts:114-125 | with that count, hasNext holds exactly when page + 1, read through its range, has rows |
| CategoriesRoute.ActiveSubcategories | src/app/api/categorias/route.ts:43-45 | only active subcategories remain, and a missing list becomes [] |
| CategoriesRoute.WithActiveSubcategories | src/app/api/categorias/route.ts:40-45 | every other field of the category is preserved, and its list holds active subcategories only |
| CategoriesRoute.MapActive | src/app/api/categorias/route.ts:39-46 | every category is kept, in order, with its list filtered |
| CategoriesRoute.Respond | src/app/api/categorias/route.ts:7-76 | a query error or an exception gives 500; null data gives []; without `include_subcategorias=true` the rows are returned as they are, and with it each row's subcategories are filtered |
| CategoriesRoute.ActiveSubcategoriesExactly | src/app/api/categorias/route.ts:43-45 | a subcategory is kept exactly when it was listed and is active |
| CategoriesRoute.ActiveSubcategoriesKeepOrder | src/app/api/categorias/route.ts:43-45 | the filter keeps the relative order |
| CategoriesRoute.AllActiveKept | src/app/api/categorias/route.ts:43-45 | a list of active subcategories is kept whole |
| SubcategoriesRoute.BuildQuery | src/app/api/subcategorias/route.ts:9-30 | the reassignment builds the active/ordered query, plus the category filter when the parameter parses |
| SubcategoriesRoute.CategoryFilterIff | src/app/api/subcategorias/route.ts:24-30 | the category filter is present exactly when `categoria` is non-empty and parses, and then it holds the parsed id |
| SubcategoriesRoute.NonNumericIgnored | src/app/api/subcategorias/route.ts:26-29 | a non-numeric `categoria` leaves the unfiltered query |
| SubcategoriesRoute.QueryKeeps | src/app/api/subcategorias/route.ts:20-30 | a row passes exactly when it is active and, when a numeric category was asked for, belongs to it |
| SubcategoriesRoute.Respond | src/app/api/subcategorias/route.ts:32-51 | a query error or an exception gives 500; otherwise the rows are returned with `total` equal to their number, 0 exactly for null or empty data |
| SalespeopleRoute.BuildQuery | src/app/api/vendedores/route.ts:9-18 | the reassignment builds the active, name-ordered query, plus the store filter |
| SalespeopleRoute.StoreFilterIff | src/app/api/vendedores/route.ts:15-18 | the store filter is added exactly when `loja_id` is present and non-empty, and it compares with the parsed id |
| SalespeopleRoute.Respond | src/app/api/vendedores/route.ts:20-95 | rows give `vendedores` (or []) without `fallback`; a query error gives 4 examples and an exception gives 2, both with `fallback` |
| SalespeopleRoute.FallbackExamples | src/app/api/vendedores/route.ts:26-89 | the examples are active and numbered 1..n; a query error's examples carry the requested store (1 without one), and an exception's carry store 1 |
| SalespeopleRoute.ExampleIdsDistinct | src/app/api/vendedores/route.ts:26-89 | the example ids are pairwise distinct |
| SalespeopleRoute.ExamplesOfRequestedStore | src/app/api/vendedores/route.ts:33-57 | with a numeric `loja_id`, every query-error example carries that store |
| ContactPopup.Message | src/components/ui/LojaVendedorPopup.tsx:132-134 | a product name gives the product message ending in that name; otherwise the generic message |
| ContactPopup.MessageInjective | src/components/ui/LojaVendedorPopup.tsx:132-134 | the message tells whether a product was named, and which one |
| ContactPopup.ChatLinkParts | src/components/ui/LojaVendedorPopup.tsx:136-137 | the link is the chat prefix and number, then "?text=" and an encoded text free of `?`, `&` and `#` that decodes back to the message's UTF-8 bytes |
| UriComponent.DecodeEncodeBytes | src/components/ui/LojaVendedorPopup.tsx:136 | percent-decoding undoes `encodeURIComponent` on every byte string |
| UriComponent.EncodedIsSafe | src/components/ui/LojaVendedorPopup.tsx:136 | the encoding contains only unreserved characters, `%` and upper-case hex digits |
| UriComponent.UnreservedUnchanged | src/components/ui/LojaVendedorPopup.tsx:136 | a string of unreserved ASCII characters is encoded as itself |
| ContactPopup.PhoneDisplay | src/components/ui/LojaVendedorPopup.tsx:288-290 | a number of at least 7 characters gains exactly 4 separator characters |
| ContactPopup.PhoneDisplayDigits | src/components/ui/LojaVendedorPopup.tsx:288-290 | the digits of the display are exactly the number |
| ContactPopup.SalespeopleAfter | src/components/ui/LojaVendedorPopup.tsx:70-123 | a body gives its list (or []); a response that is not OK gives 3 examples; an exception gives 1 |
| ContactPopup.ExamplesOfSelectedStore | src/components/ui/LojaVendedorPopup.tsx:80-119 | the examples are active, numbered from 1, and of the selected store |
| ContactPopup.Popup.constructor | src/components/ui/LojaVendedorPopup.tsx:45-49 | the store list view, with no stores, no salespeople, no selection and not loading |
| ContactPopup.Popup.Open | src/components/ui/LojaVendedorPopup.tsx:51-58 | opening starts loading the stores and leaves the view and the selection as they were |
| ContactPopup.Popup.StoresArrived | src/components/ui/LojaVendedorPopup.tsx:57-68 | a body sets the stores to `data.lojas` or []; an exception keeps them; loading ends |
| ContactPopup.Popup.SelectStore | src/components/ui/LojaVendedorPopup.tsx:125-129 | the store is selected, the salespeople view is shown, and loading starts |
| ContactPopup.Popup.SalespeopleArrived | src/components/ui/LojaVendedorPopup.tsx:70-123 | the salespeople become the fetch's list or its examples; loading ends |
| ContactPopup.Popup.Back | src/components/ui/LojaVendedorPopup.tsx:143-147 | the view returns to the stores, with no selection and no salespeople |
| ContactPopup.Popup.Close | src/components/ui/LojaVendedorPopup.tsx:149-154 | the same reset, and then the popup is closed |
| ContactPopup.Popup.OnClose | src/components/ui/LojaVendedorPopup.tsx:36 | the parent's callback closes the popup and changes nothing else |
| ContactPopup.Popup.ClickSalesperson | src/components/ui/LojaVendedorPopup.tsx:131-141 | the chat link for the salesperson and the message is opened and the popup closes; the view, the selection and the salespeople are kept |
| ContactPopup.Popup.ClickSalespersonAndReset | src/components/ui/LojaVendedorPopup.tsx:131-154 | the same link, and the popup closes reset to the store list |
| ContactPopup.ReopenAfterChat | src/components/ui/LojaVendedorPopup.tsx:131-141 | as written, reopening after a chat shows the salespeople of the store chosen last time |
| ContactPopup.ReopenAfterChatReset | src/components/ui/LojaVendedorPopup.tsx:149-154 | with the reset, reopening starts from the store list |
| SubcategoriesPage.FirstOfCategory | src/app/subcategorias/page.tsx:165-170 | the first subcategory of the category, when there is one |
| SubcategoriesPage.FirstOfCategoryIff | src/app/subcategorias/page.tsx:165-170 | a category has a first subcategory exactly when it occurs in the list |
| SubcategoriesPage.GroupByCategory | src/app/subcategorias/page.tsx:162-178 | one group per category id present; each holds that category's subcategories in list order and is named after the first one seen |
| SubcategoriesPage.AddSubcategory | src/app/subcategorias/page.tsx:163-172 | one reducer step extends the groups of a prefix to the groups of the prefix one longer |
| SubcategoriesPage.InCategoryMembers | src/app/subcategorias/page.tsx:171 | a subcategory is in its category's group exactly when it is in the list |
| SubcategoriesPage.DistinctCategoryIdsProps | src/app/subcategorias/page.tsx:224 | the category ids in order of first appearance are distinct and are exactly the group keys |
| SubcategoriesPage.GroupSizesSum | src/app/subcategorias/page.tsx:224-227 | the group sizes add up to the number of subcategories |
| SubcategoriesPage.BuildProductMap | src/app/subcategorias/page.tsx:142-148 | the map has one key per subcategory id, each holding the list of that id's last entry |
| SubcategoriesPage.FeaturedCountIsTotal | src/app/subcategorias/page.tsx:230-233 | with distinct ids the "featured" count is the sum of the fetched list lengths |
| SubcategoriesPage.Ids | src/app/subcategorias/page.tsx:136-139 | one id per subcategory, in order |
| SubcategoriesPage.Page.FetchData | src/app/subcategorias/page.tsx:129-159 | the subcategories are the helper's list; the product map holds each subcategory's helper result under its id; loading ends |
| Catalog.ListOrEmpty | src/app/subcategorias/page.tsx:74-95 | the body's list, else [] (for a missing key, a response that is not OK, or an exception) |
| Text.Plural | src/app/subcategorias/page.tsx:266-267 | the suffix is "s" exactly when the count is not 1, and empty exactly when it is 1 |
| ProductsPage.GetAfterSet | src/app/produtos/page.tsx:72-87 | after `set`, `get` returns the new value |
| ProductsPage.GetOtherAfterSet | src/app/produtos/page.tsx:72-87 | `set` leaves every other name's `get` unchanged |
| ProductsPage.SetLeavesOnePair | src/app/produtos/page.tsx:72-87 | after `set`, exactly one pair carries the name, with the new value |
| ProductsPage.SearchParams.constructor | src/app/produtos/page.tsx:72 | a new `URLSearchParams` holds no pair |
| ProductsPage.SearchParams.Set | src/app/produtos/page.tsx:72-87 | `set` replaces the pairs with those of `URLSearchParams.set` |
| ProductsPage.SetPairs | src/app/produtos/page.tsx:72-87 | the walk over the pairs computes `URLSearchParams.set` |
| ProductsPage.CopyStringParams | src/app/produtos/page.tsx:140-145 | the `forEach` leaves exactly the non-empty string values, in entry order |
| ProductsPage.CopiedGet | src/app/produtos/page.tsx:140-145 | a key reads back exactly when its route value is a non-empty string, and then as that string |
| ProductsPage.ForwardParams | src/app/produtos/page.tsx:72-87 | the sent parameters are the whitelisted ones that are set, plus the limit |
| ProductsPage.ForwardedGet | src/app/produtos/page.tsx:72-87 | `limit` is always "50"; `categoria`, `subcategoria` and `promocao` are forwarded exactly when set; nothing else is forwarded |
| ProductsPage.CategoryOrNull | src/app/produtos/page.tsx:103-119 | the category exactly when the response is OK and has one; null otherwise |
| ProductsPage.HeadingCases | src/app/produtos/page.tsx:226-231 | the heading names the loaded category; else it is the promotions title exactly for `promocao=true`; else "Todos os Produtos" |
| ProductsPage.CountLineNumber | src/app/produtos/page.tsx:234-235 | the count line begins with the product count, which reads back as the number |
| ProductsPage.CountLineWords | src/app/produtos/page.tsx:234-235 | a count of 1 reads "1 produto encontrado"; every other count reads in the plural, "produtos encontrados" |
| ProductsPage.ProdutosPage.constructor | src/app/produtos/page.tsx:126-129 | no products, no category, loading, popup closed |
| ProductsPage.ProdutosPage.FetchData | src/app/produtos/page.tsx:135-163 | the sent parameters are the forwarded copy of the route's; the products are the helper's list; the category is fetched only when requested; loading ends |
| Header.MenuCategoriesExactly | src/components/ui/Header.tsx:247-253 | a category is listed exactly when it is loaded and has a non-empty list of subcategories |
| Header.MenuCategoriesKeepOrder | src/components/ui/Header.tsx:321-327 | the menus keep the loaded order |
| Header.MenuCategoriesAll | src/components/ui/Header.tsx:321-327 | when every category has subcategories, all are listed |
| Header.MobileSubcategories | src/components/ui/Header.tsx:336-338 | between 1 and 8 subcategories are shown, as a prefix of the list, and the whole list when it has at most 8 |
| Header.SeeAllCount | src/components/ui/Header.tsx:348-356 | "Ver todas" appears exactly when some subcategories are not shown, and its count is the number left out |
| Header.SubcategoryLinkReadsBack | src/components/ui/Header.tsx:263 | a subcategory link's query reads back as the category and subcategory ids |
| Header.CategoryLinkReadsBack | src/components/ui/Header.tsx:350 | the "Ver todas" link's query reads back as the category id |
| Header.BlankIff | src/components/ui/Header.tsx:83 | the trimmed query is empty exactly when the query is all white space |
| Header.HeaderState.constructor | src/components/ui/Header.tsx:36-41 | nothing typed, menus closed, no categories, not scrolled, no logo |
| Header.HeaderState.CategoriesArrived | src/components/ui/Header.tsx:44-54 | a body sets the categories to `data.categorias` or []; an exception keeps them |
| Header.HeaderState.LogoArrived | src/components/ui/Header.tsx:56-66 | only a non-empty list sets the logo, to its first entry |
| Header.HeaderState.Scroll | src/components/ui/Header.tsx:73-75 | the header is scrolled exactly past 10 pixels |
| Header.HeaderState.Type | src/components/ui/Header.tsx:36 | the query becomes the typed text |
| Header.HeaderState.Submit | src/components/ui/Header.tsx:81-86 | a search is made exactly when the query has a character that is not white space, and then with the query |
| Header.HeaderState.ToggleMobileMenu | src/components/ui/Header.tsx:155 | the mobile menu flips |
| Header.HeaderState.FollowMobileLink | src/components/ui/Header.tsx:343 | following a mobile link closes the mobile menu |
| Header.HeaderState.EnterMegaMenu | src/components/ui/Header.tsx:195 | the mega menu opens |
| Header.HeaderState.LeaveMegaMenu | src/components/ui/Header.tsx:196 | the mega menu closes |
| Header.HeaderState.Menu | src/components/ui/Header.tsx:247-253 | every listed category has subcategories, and no more are listed than loaded |
| Header.ToggleTwice | src/components/ui/Header.tsx:155 | toggling twice leaves the mobile menu as it was |
| Footer.IconKey | src/components/ui/Footer.tsx:44-95 | every table key is in lower case |
| Footer.IconTable | src/components/ui/Footer.tsx:44-95 | the table returns an icon exactly for that icon's key |
| Footer.IconFor | src/components/ui/Footer.tsx:97 | a known lower-cased name gives its own icon; an unknown name gives Facebook's |
| Footer.IconIgnoresCase | src/components/ui/Footer.tsx:97 | a name and its lower-cased form give the same icon |
| Footer.KeysDrawTheirIcons | src/components/ui/Footer.tsx:44-97 | each table key gives its own icon |
| Footer.ChooseLogo | src/components/ui/Footer.tsx:131-144 | the first white logo; else the first logo of the fallback request; else none, exactly when neither list has one |
| Footer.Replace | src/components/ui/Footer.tsx:128-130 | a present list replaces the current one; a missing key keeps it |
| Footer.FooterState.constructor | src/components/ui/Footer.tsx:101-105 | nothing loaded, loading |
| Footer.FooterState.FetchData | src/components/ui/Footer.tsx:107-150 | the fallback is asked for exactly when there is no white logo; present keys replace their lists; the logo is the chosen one when there is one; a failure keeps everything; loading ends |

## Left out

- Database: the hosted database and its query builder are not modelled. Queries are lists of abstract steps, and their results are inputs.
- ProductsRoute.Holds: a NaN `subcategoria` sends `eq.NaN` to the database; the model chooses the meaning "matches no row", since what the database answers is not modelled.
- ProductsRoute.Holds: the search text is matched literally. In the database, a `%` or `_` in `busca` acts as a LIKE wildcard, and a `,` or `)` changes the `or(...)` filter itself; neither is modelled.
- Row ordering: the `.order(...)` steps keep every row and do not reorder the model's rows.
- Fetches: `Promise.all` and the network are inputs. Overlapping fetches and their races are event-loop concurrency and are not modelled.
- Timers: intervals and timeouts become `Tick` and `FireResume` events. The interval periods are not modelled.
- Tintas fallback request: `TintasCarousel`'s second request for any product when the paint request finds none is not modelled. The carousel takes its products as given.
- Rendering: card widths, CSS transforms, animations, icons, JSX and `window.open` are left out. So are the scroll listener's registration and `console` logging.
- Header search: the search handler only logs the query, so `Header.HeaderState.Submit` returns the query that would be searched. The scroll position is an integer.
- Footer rendering: the store, category and social-link sections of `Footer` are not modelled.
- Currency formatting (`Intl.NumberFormat`) is locale library code over floating point, and is not modelled.
- ProductCard.RoundedPercent: rounds the exact rational percentage of integer cents, for positive and negative list prices alike. JavaScript rounds a double quotient of prices in reais, which can fall just below a half-percent tie, so the source can show one less: list 20.00 and sale 19.30 are exactly 3.5% off, the double is 3.499999999999996, and the source shows 3 where the model gives 4. For a list price of 0 it gives 0, where JavaScript divides by zero: NaN for a sale price of 0 (which is falsy and never reaches the division), -Infinity for a positive sale price, and +Infinity for a negative one, which JavaScript would draw as an "Infinity" badge.
- ProductCard.DiscountBadgeIff: states the badge on the exact percentage. At an exact half-percent discount the source's double can round to 0 and draw no badge where the model draws one: list 18.00 and sale 17.91 are exactly 0.5% off.
- ProductCard.ResolveFallbacks: the SVG placeholder and its `btoa` encoding are one uninterpreted string.
- Text.ParseInt: `parseInt` skips leading white space, takes a sign and then leading decimal digits. The "0x" hexadecimal prefix is not modelled.
- Text.ParseInt: returns the exact integer, where JavaScript returns a double. Digit strings above 2^53 are rounded there (`9007199254740993` reads as 9007199254740992), so ids, pages and limits that large differ from the model.
- Text.ToLower: lower-cases ASCII letters only; JavaScript's full Unicode case mapping is not modelled.
- Text.Trim: removes ASCII white space only.
- Footer.IconFor: an inherited object key such as "constructor" yields a value in JavaScript; the table here knows only its own keys.
- UriComponent.Encode: encodes code points below 0x110000 as UTF-8 bytes. Lone surrogates, which make `encodeURIComponent` throw, are not modelled.
- QueryString.ParseQuery: splits on `&` and the first `=` without percent- or `+`-decoding. That is enough for the decimal ids the links carry.
- ProductsRoute.Respond: requires a positive limit. With limit 0, a negative limit or a NaN limit, `Math.ceil(total / limit)` is infinite, negative or NaN, and the range sent to the database is not a page; those responses are not modelled. A NaN page is modelled: it is reported as `null`, with neither a next nor a previous page.
- ProductsRoute.PageRange: a NaN page or limit gives a range with both ends unknown. What the database does with such a range is not modelled.
- SubcategoriesPage.GroupByCategory: the groups form a map. The order `Object.keys` gives integer keys is not modelled; `DistinctCategoryIds` gives the order of first appearance instead.
- The pass-through routes (`lojas`, `logos`, `banners`, `redes-sociais`), the database client, the layout and the configuration files are not part of this model.

## Findings

| source | as written | input that shows it | evidently intended | confidence | as-written member | corrected member |
|---|---|---|---|---|---|---|
| src/components/ui/LojaVendedorPopup.tsx:131-141 | `handleVendedorClick` calls only `onClose`. The component stays mounted while closed, so the view, the selected store and the salespeople survive. | Open, choose a store, click a salesperson, then reopen: the old store's salespeople are shown. | Close as `handleClose` does, resetting to the store list, so each opening starts fresh. | not executed | ContactPopup.ReopenAfterChat | ContactPopup.ReopenAfterChatReset |
| src/app/api/produtos/route.ts:108-125 | `total` counts rows by status only, ignoring the listing's filters, and `hasNext` is derived from it. | `?promocao=true&limit=1` over one promoted and one regular active product: `total` is 2 and `hasNext` is true, but page 2 is empty. | Count with the listing's own filters, so `hasNext` holds exactly when the next page has rows. | not executed | ProductsRoute.TotalIgnoresFilters | ProductsRoute.CorrectedHasNext |
