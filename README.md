# CryptoHub decision logic in Dafny

CryptoHub is a React front end over the CoinGecko market API and a
Firebase back end. It has no engine of its own, but its UI code holds
small pieces of decision logic and local state. This project models each
one and proves what the code promises:

- the **bookmark store adapter** (`toggleBookmark`, `getBookmarks`): a
  per-user document whose `bookmarks` list is flipped with
  `arrayUnion`/`arrayRemove` semantics;
- the **market filter selection**, in which `"all"` excludes every other
  filter and the selection is never empty;
- the **new-listings page**:
  - filtering and de-duplication of the fetched market pages by id;
  - the stable sort for each sort option;
  - 15-per-page slicing and bounded page changes;
  - the five-button page window;
  - the "days ago" date buckets;
- the **coin detail page**: the sentiment gauge, and the load state as the
  coin and price-history requests end with data, a rate limit or an error;
- the **login form** (unanchored `\S+@\S+\.\S+` email test, password
  length, error map, submit guard) and the **newsletter form** in the
  footer (anchored `^[^\s@]+@[^\s@]+\.[^\s@]+$` test, subscribe state);
- the **route guard** that renders, redirects to `/login` or redirects to
  `/verify-email`;
- the **profile form** defaults, per-field updates and the risk slider;
- the **blog article page**: finding the post by id or slug, filling in
  missing content, numbering the contents list, and the bookmark button;
- the **navigation bar** dropdown and mobile-menu state, and the **FAQ
  accordion**.

Each source file is one module (`BookmarkService`, `MarketFilters`,
`NewListings`, `CoinDetail`, `Login`, `Footer`, `PrivateRoute`, `Profile`,
`BlogDetail`, `Navbar`, `Faq`). A few small modules are shared:
`Wrappers` (Option/Result), `Seqs` (removing every occurrence of a value,
and `filter`), `JsText` (the `\s` character class and UTF-16 `length`), `Decimal` (`String(n)`, digit strings
and `padStart`) and `Selection` (the `x === item ? null : item` toggle).
Pure expressions in the source are functions. Component state that
handlers update step by step is a class whose methods state the whole new
state. The page-number window, which the source builds with `for` loops,
is a method with loops.

Three modelling choices run through the project:

- JavaScript's falsy values are made explicit. A missing or empty user id
  or date is `""`; a missing optional value is `None`.
- Values compare as `===` does. A bookmark id is a number or a string, and
  `1` and `"1"` differ.
- Prices and percentages are mathematical reals. Network calls, timers and
  rendering become method parameters that stand for their outcomes.

The model follows the code as written, not a more careful design:

- a bookmark toggle reads the document and then writes it, where an
  atomic update would avoid lost writes;
- a response for superseded parameters is still applied: a request
  counter would discard it, but the code has none;
- a rate-limited request leaves the page loading rather than reporting an
  error.

## Model

| member | source | states |
|---|---|---|
| BookmarkService.ArrayUnion | src/services/bookmarkService.js:32-34 | adds the id only if absent; the old list is a prefix of the new one and the members are the old ones plus the id |
| BookmarkService.ArrayRemove | src/services/bookmarkService.js:27-29 | the members afterwards are exactly the old members other than the id |
| Seqs.Without | src/components/MarketFilters.jsx:21 | `filter(f => f !== x)`: keeps exactly the elements other than `x`, never growing |
| Seqs.WithoutCounts | src/services/bookmarkService.js:27-29 | removing `x` zeroes its count and keeps every other element's number of occurrences |
| BookmarkService.Bookmarked | src/services/bookmarkService.js:45-56 | no user or no document gives `[]`; otherwise the stored list, with a missing field read as `[]` |
| BookmarkService.ToggleDoc | src/services/bookmarkService.js:22-36 | on an existing document the id's membership flips, every other id keeps its membership, and the other fields are kept |
| BookmarkService.Toggled | src/services/bookmarkService.js:10-36 | no user leaves the store as it was; otherwise only that user's document is written (created if missing), and afterwards it holds the id exactly when `getBookmarks` did not list it before |
| BookmarkService.ToggleReply | src/services/bookmarkService.js:10-36 | fails exactly when there is no user; otherwise replies `true` exactly when `getBookmarks` did not list the id before |
| BookmarkService.BookmarkStore.Toggle | src/services/bookmarkService.js:10-37 | no user id: fails with `AuthRequired` and changes nothing; otherwise the store becomes the toggled store and the reply is the id's membership afterwards |
| BookmarkService.BookmarkStore.GetBookmarks | src/services/bookmarkService.js:45-56 | returns `[]` without a user id, without a document or without the field, else the stored list; changes nothing |
| BookmarkService.ToggleReportsMembership | src/services/bookmarkService.js:24-35 | a successful toggle replies whether the id is bookmarked afterwards |
| BookmarkService.FirstToggleCreates | src/services/bookmarkService.js:16-19 | a user without a document gets one holding just that id, and the reply is `true` |
| BookmarkService.ToggleTwiceRestoresMembership | src/services/bookmarkService.js:23-36 | toggling the same id twice restores its membership, from any store |
| BookmarkService.ToggleIsolation | src/services/bookmarkService.js:13-35 | other users' documents are untouched; every other id keeps its number of occurrences in the list |
| BookmarkService.ToggleKeepsOtherFields | src/services/bookmarkService.js:18-34 | the merge and the field update write only `bookmarks` |
| BookmarkService.ToggleKeepsNoDuplicates | src/services/bookmarkService.js:26-35 | lists without duplicates stay without duplicates |
| MarketFilters.ToggleFilter | src/components/MarketFilters.jsx:10-37 | the result is non-empty and holds `"all"` only alone; `"all"` gives `["all"]`; any other filter flips its own membership |
| MarketFilters.ToggleFilterKeepsOthers | src/components/MarketFilters.jsx:17-36 | toggling a named filter leaves every other named filter's membership as it was |
| MarketFilters.ToggleFilterOrder | src/components/MarketFilters.jsx:18-29 | the other filters keep their relative order; a newly added filter goes last, after `"all"` is dropped |
| MarketFilters.ToggleFilterNoDuplicates | src/components/MarketFilters.jsx:17-36 | a selection without duplicates stays without duplicates |
| MarketFilters.ToggleFilterTwice | src/components/MarketFilters.jsx:17-36 | from any reachable selection, toggling a named filter twice gives back the same set of filters |
| NewListings.Flatten | src/pages/NewListings.jsx:47 | a coin is in the combined list exactly when it is in one of the fetched pages |
| NewListings.FlattenAppend | src/pages/NewListings.jsx:47 | the pages are combined in order: flattening a concatenation of page lists concatenates the flattened parts |
| NewListings.KeepListed | src/pages/NewListings.jsx:50-51 | keeps exactly the coins with a date and a positive price |
| NewListings.KeepListedAppend | src/pages/NewListings.jsx:50-51 | the filter works coin by coin: it keeps order and number of occurrences, distributing over concatenation |
| NewListings.KeyOf | src/pages/NewListings.jsx:82-97 | an option other than the five named ones selects the comparator that always returns 0 |
| NewListings.Insert | src/pages/NewListings.jsx:81-99 | inserting into a sorted list keeps it sorted and adds exactly that coin |
| NewListings.InsertSplices | src/pages/NewListings.jsx:81-99 | the coin is spliced in after exactly the elements that rank strictly below it, so ahead of every equal rank |
| NewListings.SortBy | src/pages/NewListings.jsx:81-99 | the sorted list has the same length and is ordered by the option's comparator |
| NewListings.SortByPermutes | src/pages/NewListings.jsx:81-99 | sorting is a permutation of its input |
| NewListings.InsertWithRank | src/pages/NewListings.jsx:81-99 | among the coins of one rank, an inserted coin comes first and the others keep their order |
| NewListings.SortByStable | src/pages/NewListings.jsx:81-99 | the sort is stable: the coins of any one rank come out in the order they went in |
| NewListings.SortBySameMembers | src/pages/NewListings.jsx:81-99 | sorting neither adds nor drops a coin |
| NewListings.PriceOrders | src/pages/NewListings.jsx:85-88 | `price_low` gives ascending prices and `price_high` descending ones |
| NewListings.UnknownSortKeepsOrder | src/pages/NewListings.jsx:96-97 | an unknown option (comparator 0) keeps the order, as a stable sort must |
| NewListings.DedupIds | src/pages/NewListings.jsx:55-57 | after `new Map(...)` no id appears twice, every input id appears, and no new id appears |
| NewListings.DedupKeepsLast | src/pages/NewListings.jsx:55-57 | the coin kept for an id is its last occurrence |
| NewListings.DedupFirstOrder | src/pages/NewListings.jsx:55-57 | ids appear in the order of their first occurrence |
| NewListings.Dedup | src/pages/NewListings.jsx:55-57 | `new Map(...)` never adds coins and is empty exactly when its input is |
| NewListings.PostProcess | src/pages/NewListings.jsx:47-59 | never returns more coins than were fetched, and returns some coin whenever a fetched coin is listed |
| NewListings.PostProcessSound | src/pages/NewListings.jsx:47-59 | every coin returned was fetched and is listed, no id repeats, and every listed fetched coin's id is present |
| NewListings.TotalPages | src/pages/NewListings.jsx:102 | the fewest 15-item pages that hold the list |
| NewListings.Slice | src/pages/NewListings.jsx:103-106 | `slice` clamps both bounds to the length and copies the items between them |
| NewListings.PageItems | src/pages/NewListings.jsx:103-106 | at most 15 items; non-empty for every existing page; empty past the last page |
| NewListings.RowRank | src/pages/NewListings.jsx:273 | the rank beside each of a page's (at most 15) rows lies in that page's range `(page-1)*15+1 .. page*15` |
| NewListings.RowRankIsPosition | src/pages/NewListings.jsx:273 | the rank shown beside a row is that coin's 1-based position in the sorted list |
| NewListings.FirstPagesArePrefix | src/pages/NewListings.jsx:102-106 | pages `1..k` together are the first `15k` items |
| NewListings.PagesCoverList | src/pages/NewListings.jsx:102-106 | all pages together are exactly the sorted list |
| NewListings.PageNumbers | src/pages/NewListings.jsx:346-374 | up to five pages: all of them; otherwise five consecutive existing pages: 1-5 while the current page is at most 3, the last five when it is within two of the last page or past it, and otherwise centred on it, so it always shows the current page when that page exists |
| NewListings.DiffDays | src/pages/NewListings.jsx:119-120 | whole days elapsed, rounded down |
| NewListings.FormatDate | src/pages/NewListings.jsx:115-132 | no date gives N/A; otherwise each label's number lies in its range (days under 7, weeks 1 to 4, months 1 to 12) and is the floor of the day difference |
| NewListings.FormatDateBuckets | src/pages/NewListings.jsx:122-126 | each range of day differences gets exactly one kind of label |
| NewListings.ListingsView.constructor | src/pages/NewListings.jsx:64-65 | starts on page 1, sorted by newest, with no data |
| NewListings.ListingsView.SortedCoins | src/pages/NewListings.jsx:81-99 | `sortedCoins` is ordered by the chosen option and is a permutation of the data |
| NewListings.ListingsView.CurrentCoins | src/pages/NewListings.jsx:102-106 | `currentCoins` holds at most 15 rows, at least one on an existing page and none past the last page |
| NewListings.ListingsView.HandlePageChange | src/pages/NewListings.jsx:108-113 | moves only to a page from 1 to the last; otherwise nothing changes |
| NewListings.ListingsView.SelectSort | src/pages/NewListings.jsx:215-216 | sets the sort option and returns to page 1 |
| NewListings.ListingsView.ReceiveCoins | src/pages/NewListings.jsx:68-78 | new data keeps the page number, which may then lie past the last page and show no rows |
| CoinDetail.CalculateSentiment | src/pages/Home/Coin/Coin.jsx:105-118 | missing or zero change: Neutral at 50; a rise: Bullish in (50, 95]; a fall: Bearish in [5, 50); saturates at 95 and 5 from a change of 4.5 |
| CoinDetail.GaugeLinearBand | src/pages/Home/Coin/Coin.jsx:111-115 | below saturation the gauge is `50 + 10c` on both sides |
| CoinDetail.GaugeMirror | src/pages/Home/Coin/Coin.jsx:110-116 | a fall reads as the mirror image of the same rise |
| CoinDetail.GaugeMonotone | src/pages/Home/Coin/Coin.jsx:109-116 | a larger change never lowers the gauge |
| CoinDetail.AfterFetch | src/pages/Home/Coin/Coin.jsx:34-51 | 429: nothing changes; parsed ok response: data stored, loading cleared; any other outcome: only loading cleared |
| CoinDetail.LoadingEndsUnlessRateLimited | src/pages/Home/Coin/Coin.jsx:34-51 | the loading flag stays set exactly when it was set and the outcome is a 429 |
| CoinDetail.DataNeverCleared | src/pages/Home/Coin/Coin.jsx:41-51 | stored data is never cleared, and only a parsed ok response replaces it |
| CoinDetail.Gate | src/pages/Home/Coin/Coin.jsx:122-139 | loading while either flag is set; no data while either dataset is missing; else the page with the coin's sentiment |
| CoinDetail.SentimentOf | src/pages/Home/Coin/Coin.jsx:120 | there is no sentiment exactly when there is no coin data |
| CoinDetail.ReadyShowsSentiment | src/pages/Home/Coin/Coin.jsx:120-139 | a rendered page shows the sentiment of its coin data |
| CoinDetail.RateLimitedCoinStaysLoading | src/pages/Home/Coin/Coin.jsx:34-39 | a rate-limited first coin request leaves the page on its spinner |
| CoinDetail.CoinPage.constructor | src/pages/Home/Coin/Coin.jsx:10-14 | no data, both requests loading, 7-day timeframe |
| CoinDetail.CoinPage.OnCoinResponse | src/pages/Home/Coin/Coin.jsx:28-51 | the coin data and flag follow the fetch outcome; the history state is untouched |
| CoinDetail.CoinPage.OnHistoryResponse | src/pages/Home/Coin/Coin.jsx:61-96 | without a currency name nothing happens; otherwise the history data and flag follow the outcome |
| CoinDetail.CoinPage.SelectTimeframe | src/pages/Home/Coin/Coin.jsx:174-192 | only the timeframe changes; the loading flags are not raised again |
| Login.LooseEmailTight | src/components/Login.jsx:33 | the unanchored pattern matches exactly when some `@` has a non-space character before it and, after one or more non-space characters, a `.` followed by a non-space character |
| Login.LooseEmail | src/components/Login.jsx:33 | a string the pattern accepts has at least five characters, an `@` and a `.` |
| Login.LooseEmailNonEmpty | src/components/Login.jsx:31-35 | any string the pattern accepts has at least five characters |
| Login.LooseEmailUnanchored | src/components/Login.jsx:33 | a match survives any text added before and after it |
| JsText.Utf16Length | src/components/Login.jsx:38 | a string's `length` counts UTF-16 code units: between one and two per character, one for every character below U+10000 |
| JsText.Utf16LengthAppend | src/components/Login.jsx:38 | `length` adds up over concatenation |
| Login.ValidationErrors | src/components/Login.jsx:28-41 | empty email: "Email is required"; otherwise an error exactly when the pattern fails; empty password: required; 1 to 5 UTF-16 code units: too short; 6 or more: no error |
| Login.ValidIff | src/components/Login.jsx:42-43 | the error map is empty exactly when the email matches and the password's `length` is at least 6 |
| Login.AstralPasswordLongEnough | src/components/Login.jsx:36-40 | three emoji make a long enough password, being six code units |
| Login.LoginForm.constructor | src/components/Login.jsx:7-11 | empty fields, no errors |
| Login.LoginForm.HandleChange | src/components/Login.jsx:14-26 | sets only the named field; blanks that field's error only if one was showing; other errors untouched |
| Login.LoginForm.ValidateForm | src/components/Login.jsx:28-44 | stores exactly the computed errors and returns whether the form is valid |
| Login.LoginForm.HandleSubmit | src/components/Login.jsx:46-54 | navigates to `/` exactly when the form validates |
| Footer.ValidEmailIff | src/components/Footer.jsx:25-26 | the anchored pattern accepts exactly: one `@`, a non-empty local part, no white space, and a `.` in the domain that is neither first nor last |
| Footer.IsValidEmail | src/components/Footer.jsx:25-26 | an accepted address has at least five characters and neither starts nor ends with `@` |
| Footer.ValidEmailPassesLogin | src/components/Footer.jsx:25-26 | every address the newsletter accepts also passes the login form's test |
| Footer.SubmitEnabled | src/components/Footer.jsx:114 | the button is enabled exactly when no subscription is running and the address is non-empty |
| Footer.Newsletter.constructor | src/components/Footer.jsx:19-21 | empty address, not submitting, empty status |
| Footer.Newsletter.TypeEmail | src/components/Footer.jsx:105-108 | typing sets the address except while submitting, when the field is disabled |
| Footer.Newsletter.HandleSubscribe | src/components/Footer.jsx:28-37 | an invalid address sets the error status and does not start submitting; a valid one starts submitting with "Subscribing..." and disables the button |
| Footer.Newsletter.FinishSubscribe | src/components/Footer.jsx:40-43 | success status, cleared address, not submitting |
| Footer.Newsletter.ClearStatus | src/components/Footer.jsx:44 | the status line is cleared and nothing else changes |
| PrivateRoute.Decide | src/components/PrivateRoute.jsx:5-36 | loading renders the page; otherwise no user goes to `/login`; a password-provider user with an unverified email goes to `/verify-email` exactly when not already there |
| PrivateRoute.OtherProvidersNeverVerify | src/components/PrivateRoute.jsx:23-35 | users without the password provider, or without a provider list, are never sent to verification |
| PrivateRoute.VerifiedUserRenders | src/components/PrivateRoute.jsx:31-35 | a verified user always gets the page |
| PrivateRoute.NoRedirectLoop | src/components/PrivateRoute.jsx:20-33 | on `/verify-email` a signed-in user gets the page, so the guard never redirects to itself |
| Profile.Set | src/pages/Dashboard/Profile.jsx:25-31 | the named field takes the value and every other field keeps its value |
| Profile.BeforeFirstAt | src/pages/Dashboard/Profile.jsx:13 | `split('@')[0]`: a prefix without `@`, followed by `@` or the end |
| Profile.InitialForm | src/pages/Dashboard/Profile.jsx:12-23 | the name is the display name, else the email up to its first `@`, else empty; the id is the uid, else `USER-12345678`; USD, Beginner, Medium |
| Profile.DerivedNameHasNoAt | src/pages/Dashboard/Profile.jsx:13 | a name derived from the email has no `@` and is the email's prefix |
| Profile.SliderValue | src/pages/Dashboard/Profile.jsx:240-243 | Low gives 0, Medium 1, anything else 2 |
| Profile.ToleranceOf | src/pages/Dashboard/Profile.jsx:245-247 | 0 gives Low, 1 Medium, anything else High |
| Profile.ToleranceRoundTrip | src/pages/Dashboard/Profile.jsx:240-247 | each of Low, Medium and High survives a trip through the slider |
| Profile.SliderRoundTrip | src/pages/Dashboard/Profile.jsx:240-247 | each slider position 0, 1 and 2 survives a trip through the tolerance |
| Profile.ProfileForm.constructor | src/pages/Dashboard/Profile.jsx:10-23 | the form starts with the derived defaults, not saving |
| Profile.ProfileForm.HandleChange | src/pages/Dashboard/Profile.jsx:25-31 | only the named field changes |
| Profile.ProfileForm.SetExperience | src/pages/Dashboard/Profile.jsx:210 | only the trading experience changes |
| Profile.ProfileForm.SetSlider | src/pages/Dashboard/Profile.jsx:244-248 | only the risk tolerance changes, and the slider then shows the chosen position |
| Profile.ProfileForm.HandleSubmit | src/pages/Dashboard/Profile.jsx:33-35 | the save starts; the form data is unchanged |
| Profile.ProfileForm.FinishSave | src/pages/Dashboard/Profile.jsx:37-38 | the save ends; the form data is unchanged |
| Decimal.NatToString | src/components/BlogDetail.jsx:204 | `String(n)`: digits only, no leading zero, one digit exactly below 10 |
| Decimal.NatToStringValue | src/components/BlogDetail.jsx:204 | reading the text of a number back gives the number |
| Decimal.LeadingZeroValue | src/components/BlogDetail.jsx:204 | a leading zero does not change a digit string's value |
| Decimal.PadStart | src/components/BlogDetail.jsx:204 | `padStart`: the result ends with the text and is filled up to the width |
| Decimal.PadTwo | src/components/BlogDetail.jsx:204 | at least two digits, exactly two below 100, with the number's value |
| BlogDetail.LookupKey | src/components/BlogDetail.jsx:31 | `id \|\| slug`: the id when it is non-empty, else the slug |
| BlogDetail.ToNumber | src/components/BlogDetail.jsx:33 | `Number(key)`: NaN for a missing key, 0 for `""`, the value of a digit string |
| BlogDetail.Matches | src/components/BlogDetail.jsx:32-34 | a post whose slug equals the key always matches, and with no key exactly the posts without a slug match |
| BlogDetail.FindBlog | src/components/BlogDetail.jsx:32-34 | no post exactly when none matches; otherwise the first matching post |
| BlogDetail.FindsByNumericId | src/components/BlogDetail.jsx:31-34 | the route `/blog/<n>` finds the post with numeric id `n` when ids are distinct and no slug reads `n` |
| BlogDetail.NormalizeContent | src/components/BlogDetail.jsx:69-90 | present parts are kept, even when empty; a missing contents list is the five default headings; missing sections are the two defaults, the first holding the excerpt or the fallback text |
| BlogDetail.TocNumber | src/components/BlogDetail.jsx:204 | the number beside entry `i` has value `i + 1` and at least two digits: exactly two below entry 99, and `String(i + 1)` from there on |
| BlogDetail.TocNumbersDistinct | src/components/BlogDetail.jsx:202-206 | different entries get different numbers |
| BlogDetail.BlogBookmarkView.constructor | src/components/BlogDetail.jsx:27-28 | not bookmarked, loading |
| BlogDetail.BlogBookmarkView.CheckStatus | src/components/BlogDetail.jsx:37-51 | with a user and a post, shows whether the post is in the user's bookmarks; loading cleared in every case |
| BlogDetail.BlogBookmarkView.HandleBookmark | src/components/BlogDetail.jsx:97-117 | no user: no toggle, redirect to `/login`; otherwise one toggle, after which the button matches the store; a rejected toggle leaves the button as it was |
| Selection.Click | src/components/FAQ.jsx:34-36 | clicking the selected item deselects it; clicking any other item selects it |
| Selection.ClickTwice | src/components/FAQ.jsx:34-36 | clicking an item twice, from any state, gives back whether it was selected |
| Selection.ClickSelectsOnlyItem | src/components/Navbar.jsx:30-32 | a click never selects an item other than the one clicked |
| Faq.AtMostOneShown | src/components/FAQ.jsx:44-48 | at most one answer is shown at a time |
| Faq.Shown | src/components/FAQ.jsx:44-48 | no answer is shown while the index is `null`; otherwise exactly the answer at the active index |
| Faq.Accordion.constructor | src/components/FAQ.jsx:5 | no answer is shown at first |
| Faq.Accordion.ToggleFaq | src/components/FAQ.jsx:34-36 | flips whether the clicked answer is shown and hides every other one |
| Navbar.LinksToRender | src/components/Navbar.jsx:83-104 | signed out: the public links; signed in: the public links followed by Dashboard and Leaderboard |
| Navbar.SignInOnlyAdds | src/components/Navbar.jsx:98-104 | every public link is still listed after signing in |
| Navbar.DesktopMenuShown | src/components/Navbar.jsx:122 | the desktop menu is hidden exactly on `/dashboard` |
| Navbar.NavState.constructor | src/components/Navbar.jsx:14-16 | menus closed |
| Navbar.NavState.DropdownEnter | src/components/Navbar.jsx:22-24 | the hovered dropdown opens |
| Navbar.NavState.DropdownLeaveFires | src/components/Navbar.jsx:26-28 | the delayed close closes any dropdown |
| Navbar.NavState.DropdownClick | src/components/Navbar.jsx:30-32 | clicking the open dropdown closes it; any other becomes the open one |
| Navbar.NavState.ToggleMobile | src/components/Navbar.jsx:34-36 | the mobile menu flag is negated; nothing else changes |
| Navbar.NavState.CloseMobile | src/components/Navbar.jsx:38-41 | mobile menu closed and no dropdown open |
| Navbar.NavState.OnKeyDown | src/components/Navbar.jsx:68-70 | Escape closes any dropdown; other keys change nothing |
| Navbar.NavState.OnDocumentClick | src/components/Navbar.jsx:62-66 | a click outside every dropdown container closes an open dropdown |
| Navbar.NavState.HandleLogout | src/components/Navbar.jsx:43-51 | a successful sign-out navigates home and closes the menus; a failed one changes nothing |

## Left out

- Network I/O (the CoinGecko requests, `Promise.all` over pages, query
  caching) is not modelled. Each request's outcome is a parameter: data,
  a status, or a rejected promise.
- The market pages' fetch fails as a whole when one page is not ok; only
  the list it resolves to is modelled.
- Firestore is an abstract map from user id to document. Its own failures
  are not modelled, so `getBookmarks` and a toggle with a user id always
  succeed.
- Concurrency is not modelled. Each toggle is one atomic step, so the
  read-then-write race between two clients is not captured. Stale
  responses are not captured either.
- Timers are not modelled. The coin and history delays, the 100 ms
  dropdown close, and the simulated newsletter and profile saves appear
  only as the methods their callbacks run (`DropdownLeaveFires`,
  `FinishSubscribe`, `ClearStatus`, `FinishSave`).
- Date parsing and the clock are not modelled. A coin carries the instant
  its `atl_date` denotes, and `FormatDate` takes that instant and "now" as
  integers.
- NewListings.FormatDate: the last bucket returns the instant rather than
  its `toLocaleDateString("en-US", ...)` text. An unparseable date (NaN)
  is not modelled.
- NewListings.SortBy: a missing price counts as 0, as `null` does in
  subtraction; a comparator that yields NaN (an `undefined` price, an
  invalid date) is not modelled.
- `formatNumber`, `toLocaleString` and `toFixed` are not modelled, and
  neither is rendering: JSX, CSS, animation, icons, `window.scrollTo`,
  sharing, the random view count and the show-password switch.
- CoinDetail.CalculateSentiment works over reals: no IEEE rounding, and no
  NaN (which is also falsy and would read as neutral).
- CoinDetail.CoinPage.OnCoinResponse and CoinDetail.CoinPage.OnHistoryResponse:
  a response body that parses to JSON `null` is not distinguished from
  data; the page would store `null` and show its empty state.
- BlogDetail.ToNumber: only `undefined`, `""` and ASCII digit strings are
  modelled. Every other key is treated as NaN, although `Number` also
  accepts surrounding white space, a sign, a fraction, an exponent and a
  hexadecimal prefix.
- The post list comes from a generator that `src/data/blogData.js` does
  not export, so it is a parameter of `FindBlog`.
- Navbar.NavState.DropdownEnter and DropdownClick accept any label. In the
  page only dropdown entries ("More") call them.
- The `Navbar.jsx` module imports `useAuth` twice, which a module parser
  rejects. Only its handlers are modelled.
- The static pages and `EmailVerification.jsx` are not part of this
  model.
