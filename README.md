# Food-ordering front end: verified model of its rules

This project models, in Dafny, the deterministic rules inside the React front end of a
food-ordering app. The model covers:

- the per-restaurant shopping cart on the restaurant detail page and its mirror in session storage;
- the order summary's cents arithmetic and its display;
- the checkout button's gating;
- the checkout request built from the cart;
- the restaurant search page's state machine and the query it sends;
- the search bar;
- the order-status table and the "expected by" clock;
- the manage-restaurant form: its validation rules, its multipart serialisation and its edit-load conversion;
- the user-profile form;
- the menu-image cache that the form writes and the menu card reads;
- the sales dashboard's label, filename and period helpers, and the sales-report query;
- the local-storage-backed reactive value;
- the guided-tour step registry and its "tutorial completed" gate.

Conventions:

- **Money** is non-negative integer cents (`nat`).
  - `Decimal.ToFixed2` is `(c/100).toFixed(2)`, following section 21.1.3.3 of ECMA-262.
  - `Decimal.JsNumberText` is `String(c/100)`: shortest digits, no trailing zeros.
- **Browser storage** is `WebStorage.Storage`, a class over `map<string,string>`. Session storage and local storage are two instances.
- **JSON** is a value datatype with a self-delimiting text codec, `Json.Serialize`/`Json.Deserialize`. `None` stands for a parse failure.
- **URL parameters** are the ordered key/value list before percent-encoding (`UrlParams`).
- **Times of day** are minutes since midnight.
- **State-changing code** is modelled as classes whose methods state their whole new state:
  - the cart page;
  - the form's `FormData`;
  - the menu row and section;
  - the search bar;
  - the dashboard;
  - the reactive storage value;
  - the tour provider.

  The pure parts are datatypes and functions, with lemmas relating them.

Behaviour the model records as written:

- The checkout request copies the form's *country* into `deliveryDetails.city`.
- A menu price of p cents is loaded into the edit form as p div 100 dollars, so resubmitting drops the cents.
- The image cache writer (`menuItem_<name>_<form price>`) and the reader (`menuItem_<name>_<String(p/100)>`) agree only when p is a whole number of dollars.
- A corrupt stored cart makes the initial load fail rather than fall back to an empty cart.

## Model

| member | source | states |
|---|---|---|
| Cart.IncrementLines | src/pages/DetailPage.tsx:40-44 | the mapped cart has one line per original line (contents in Cart.AddExisting) |
| Cart.RemoveFromCart | src/pages/DetailPage.tsx:68 | the filtered cart is no longer and contains no line with the removed id |
| Cart.AddExisting | src/pages/DetailPage.tsx:35-44 | adding an item already in the cart raises only that line's quantity by one; length, order and every other line are unchanged |
| Cart.AddNew | src/pages/DetailPage.tsx:45-55 | adding an item not in the cart appends `{_id, name, price, quantity: 1}` at the end |
| Cart.AddTwiceToEmpty | src/pages/DetailPage.tsx:33-64 | adding the same item twice to an empty cart gives one line with quantity 2 |
| Cart.QuantityOfAbsent | src/pages/DetailPage.tsx:35-37 | an id with no line has quantity 0 |
| Cart.QuantityOfAppend | src/pages/DetailPage.tsx:46-54 | an appended line's quantity is what the cart reports for its id |
| Cart.AddRaisesQuantity | src/pages/DetailPage.tsx:33-64 | in a cart with distinct ids, one add raises that item's quantity by exactly one |
| Cart.AddTwiceRaisesByTwo | src/pages/DetailPage.tsx:33-64 | two adds of the same item raise its quantity by two |
| Cart.AddPreservesWellFormedIds | src/pages/DetailPage.tsx:33-64 | adding keeps the line ids pairwise distinct |
| Cart.AddPreservesWellFormed | src/pages/DetailPage.tsx:33-64 | adding keeps ids distinct and every quantity at least 1 |
| Cart.RemoveAbsent | src/pages/DetailPage.tsx:68 | removing an id that is not in the cart leaves the cart unchanged |
| Cart.RemoveLine | src/pages/DetailPage.tsx:66-77 | removing line k's id drops exactly that whole line (not a decrement) and keeps the others in order |
| Cart.RemoveKeeps | src/pages/DetailPage.tsx:68 | a line survives removal iff it was in the cart and has a different id |
| Cart.RemovePreservesWellFormed | src/pages/DetailPage.tsx:66-77 | removal keeps ids distinct and quantities at least 1 |
| Cart.ActionsPreserveWellFormed | src/pages/DetailPage.tsx:33-77 | any sequence of adds and removes from a well-formed cart keeps it well formed |
| Cart.CartKeyInjective | src/pages/DetailPage.tsx:57-60 | `cartItems-<restaurantId>` keys of different restaurants differ |
| Cart.CartToJson | src/pages/DetailPage.tsx:57-60 | the stored cart is a JSON array with one element per line |
| Cart.ItemsRoundTrip | src/pages/DetailPage.tsx:57-60 | decoding the JSON elements of an encoded cart gives the same cart back |
| Cart.CartRoundTrip | src/pages/DetailPage.tsx:28-31 | parsing the stored text of a cart succeeds and yields that cart |
| Cart.LoadAfterSave | src/pages/DetailPage.tsx:28-31 | after a save under a restaurant's key, the initial load for that restaurant returns the saved cart |
| Cart.LoadOtherUnaffected | src/pages/DetailPage.tsx:57-60 | saving one restaurant's cart does not change what another restaurant loads |
| Cart.LoadCorruptFails | src/pages/DetailPage.tsx:28-31 | any non-empty stored text that is not JSON, or is JSON but not a cart, makes the load fail; a failure arises only that way |
| Cart.LoadTruncatedFails | src/pages/DetailPage.tsx:28-31 | an illustration of `LoadCorruptFails`: the truncated stored value `{` fails the load instead of yielding an empty cart |
| DetailPage.CheckoutLines | src/pages/DetailPage.tsx:84-88 | the checkout request has one entry per cart line |
| DetailPage.BuildCheckout | src/pages/DetailPage.tsx:79-95 | a request exists iff the restaurant is loaded; it carries the restaurant's id and one entry per line |
| DetailPage.CheckoutLinesFaithful | src/pages/DetailPage.tsx:84-88 | entry i carries line i's id and name, and its quantity as a decimal string that reads back to the quantity |
| DetailPage.CheckoutIgnoresPrices | src/pages/DetailPage.tsx:84-88 | carts that differ only in prices give the same checkout entries: no price is sent |
| DetailPage.DeliveryCityIsCountry | src/pages/DetailPage.tsx:90-95 | `deliveryDetails.city` is the form's country, so it differs from the entered city whenever city and country differ |
| DetailPage.Page.constructor | src/pages/DetailPage.tsx:28-31 | the page starts with the given cart for its restaurant |
| DetailPage.Page.AddToCart | src/pages/DetailPage.tsx:33-64 | the cart becomes `AddToCart` of the old cart; only that restaurant's key is rewritten, with the new cart; well-formedness is kept |
| DetailPage.Page.RemoveFromCart | src/pages/DetailPage.tsx:66-77 | the cart loses the passed row's line; only that restaurant's key is rewritten, with the new cart; well-formedness is kept |
| DetailPage.Mount | src/pages/DetailPage.tsx:28-31 | mounting succeeds iff the stored cart loads, and the page then holds exactly the loaded cart, in sync with storage |
| OrderSummary.SubtotalAppend | src/components/OrderSummary.tsx:20-23 | the sum of price × quantity over a concatenation is the sum of the parts |
| OrderSummary.EmptyCartTotal | src/components/OrderSummary.tsx:20-26 | an empty cart's total is the delivery price, displayed as its two-decimal text |
| OrderSummary.WorkedExample | src/components/OrderSummary.tsx:19-27 | 2 × 8.50 + 3.00 + 1.99 delivery totals 2199 cents, shown as "21.99" |
| OrderSummary.SubtotalIncrementOnly | src/components/OrderSummary.tsx:20-23 | incrementing one line's quantity raises the subtotal by that line's price |
| OrderSummary.AddExistingRaisesTotal | src/components/OrderSummary.tsx:20-24 | adding an item already in the cart raises the total by exactly its price |
| OrderSummary.AddNewRaisesTotal | src/components/OrderSummary.tsx:20-24 | adding a new item raises the total by exactly its price |
| OrderSummary.RemoveLowersTotal | src/components/OrderSummary.tsx:20-24 | removing a line lowers the total by that line's price × quantity |
| OrderSummary.TotalOrderIndependent | src/components/OrderSummary.tsx:20-23 | carts that are permutations of each other have the same subtotal |
| OrderSummary.LineTextsAddUp | src/components/OrderSummary.tsx:47 | the per-line amounts shown, read back, sum to the subtotal |
| OrderSummary.ShownAmountsSum | src/components/OrderSummary.tsx:20-26 | the delivery text plus the per-line texts, read back, sum to the total cost |
| OrderSummary.DisplayedAmountsAddUp | src/components/OrderSummary.tsx:26 | the shown line and delivery amounts add up to the header total as displayed |
| Decimal.NatToStringShape | src/pages/DetailPage.tsx:87 | a decimal string is non-empty, all digits, without a leading zero unless it is "0", one digit below 10 and two from 10 to 99 |
| Decimal.NatToStringLength | src/pages/DetailPage.tsx:87 | n is below 10 to the power of its digit count and, unless it is 0, at least 10 to the power of one less |
| Decimal.NatToStringLengthIff | src/pages/DetailPage.tsx:87 | n has k + 1 digits iff n < 10^(k+1) and either k = 0 or n ≥ 10^k |
| Decimal.NatToStringRoundTrip | src/pages/DetailPage.tsx:87 | the digits of `n.toString()` read back to n |
| Decimal.NatToStringInjective | src/pages/DetailPage.tsx:87 | different numbers have different decimal strings |
| Decimal.IntToStringRoundTrip | src/api/restaurantApi.tsx:36 | a signed decimal string parses back to its integer |
| Decimal.IntToStringInjective | src/api/restaurantApi.tsx:36 | different integers have different decimal strings |
| Decimal.TwoDigitsShape | src/components/OrderSummary.tsx:26 | the cents part is exactly two digits with a leading zero iff below 10 |
| Decimal.ToFixed2RoundTrip | src/components/OrderSummary.tsx:26 | `(c/100).toFixed(2)` reads back to c cents |
| Decimal.ToFixed2Injective | src/components/OrderSummary.tsx:26 | different amounts of cents display differently |
| Decimal.JsNumberTextHasPoint | src/components/MenuItem.tsx:15 | `String(c/100)` contains a point iff c is not a whole number of dollars |
| Decimal.JsNumberTextWhole | src/components/MenuItem.tsx:15 | `String(c/100)` of a whole number of dollars is that number's decimal string |
| Json.DeserializeSerialize | src/hooks/useReactiveLocalStorage.ts:9-31 | parsing a stringified value gives the value back |
| Json.ParseEncode | src/hooks/useReactiveLocalStorage.ts:9-31 | a value's text followed by anything parses to the value and leaves the rest |
| Json.SerializeInjective | src/hooks/useReactiveLocalStorage.ts:31 | different values stringify differently |
| Json.DeserializeEmptyFails | src/hooks/useReactiveLocalStorage.ts:9 | empty text does not parse |
| CheckoutButton.RenderCases | src/components/CheckoutButton.tsx:28-66 | login button iff not authenticated, redirecting back to the pathname; loading button iff authenticated and auth loading, no profile or a pending request; otherwise the dialog, disabled as given and pre-filled from the user |
| CheckoutButton.NoTriggerWhileCheckoutPending | src/components/CheckoutButton.tsx:44-46 | while a checkout request is pending there is no dialog, and nothing can be submitted |
| CheckoutButton.DetailPageCheckoutEnabled | src/pages/DetailPage.tsx:145 | for a signed-in user with a profile, the checkout trigger is disabled exactly when the cart is empty |
| CheckoutButton.DialogSubmitValid | src/components/CheckoutButton.tsx:48-63 | the dialog hands values to `onCheckout` iff it is shown with an enabled trigger and the values pass the profile schema, and then unchanged |
| CheckoutButton.EmptyCartBlocksCheckout | src/pages/DetailPage.tsx:145 | on the detail page a signed-in user's valid values reach `onCheckout` iff the cart is non-empty |
| UserProfileForm.Issues | src/forms/user-profile-form/UserProfileForm.tsx:19-25 | at most four issues are reported |
| UserProfileForm.SubmitAcceptsValid | src/forms/user-profile-form/UserProfileForm.tsx:60 | `onSave` receives the values iff they pass the schema, unchanged |
| UserProfileForm.IssueMessages | src/forms/user-profile-form/UserProfileForm.tsx:21-24 | each required field is reported with its own message exactly when it is empty, and nothing else is reported |
| UserProfileForm.EmailUnconstrained | src/forms/user-profile-form/UserProfileForm.tsx:20 | the email never affects validity |
| UserProfileForm.EditKeepsEmail | src/forms/user-profile-form/UserProfileForm.tsx:76 | editing any field leaves the disabled email as it was |
| UserProfileForm.ResetThenSubmit | src/forms/user-profile-form/UserProfileForm.tsx:48-55 | a form reset to the current user submits iff the user's four required fields are non-empty, and then submits the user's values |
| SearchPage.StepPage | src/pages/SearchPage.tsx:42-75 | paging sets the page; reset keeps it; every other update returns to page 1 |
| SearchPage.StepFrame | src/pages/SearchPage.tsx:42-75 | each update changes only its own field: query by a search or reset (to ""), cuisines replaced wholesale, sort by a sort change |
| SearchPage.PageOnlyFromPaging | src/pages/SearchPage.tsx:42-75 | without paging actions the page is either 1 or the starting page, and stays 1 from the initial state |
| SearchPage.SortKeptWithoutSortBy | src/pages/SearchPage.tsx:42-75 | without sort changes any run of updates keeps the sort option |
| SearchPage.QueryThenReset | src/pages/SearchPage.tsx:62-75 | searching then resetting gives the old state with an empty query on page 1; reset is idempotent |
| SearchPage.ViewCases | src/pages/SearchPage.tsx:31-40 | spinner iff loading; "No results found" iff no data or no city; results carry the server's page and page count |
| SearchPage.ViewIgnoresStatePage | src/pages/SearchPage.tsx:104-108 | the view does not depend on the page held in the search state |
| SearchBar.QueryIssue | src/components/SearchBar.tsx:10-12 | a query is rejected iff it is empty, with "Restaurant name is required" |
| SearchBar.WhitespaceAccepted | src/components/SearchBar.tsx:11 | a blank query is accepted (no trimming), the empty one is not |
| SearchBar.Bar.constructor | src/components/SearchBar.tsx:29-34 | the field starts as the `searchQuery` prop, with no error and not yet submitted |
| SearchBar.Bar.Type | src/components/SearchBar.tsx:29-57 | typing sets the field; before any submit the error stays as it was, after a submit the schema re-runs on the new text (`reValidateMode` onChange) |
| SearchBar.Bar.SyncProp | src/components/SearchBar.tsx:36-38 | a prop change resets the field to the prop, clears the error and the submitted state |
| SearchBar.Bar.HandleReset | src/components/SearchBar.tsx:40-48 | reset empties the field, clears the error and the submitted state, calls `onReset` once if provided, and never submits |
| SearchBar.Bar.Submit | src/components/SearchBar.tsx:57 | a non-empty field is passed unchanged to `onSubmit`; an empty one is not, and raises the required error; either way the form counts as submitted |
| UrlParams.Get | src/api/restaurantApi.tsx:34-38 | a lookup succeeds iff the name is present |
| UrlParams.RemoveAll | src/api/restaurantApi.tsx:35-38 | removing a name removes exactly that name |
| UrlParams.GetAfterSet | src/api/restaurantApi.tsx:35-38 | after `set(name, value)` the name reads as value |
| UrlParams.GetOtherAfterSet | src/api/restaurantApi.tsx:35-38 | `set` does not change how other names read |
| UrlParams.GetAppended | src/api/salesPerformanceApi.tsx:65-67 | appending a new name makes it read as its value and changes nothing else |
| UrlParams.GetRemoveAll | src/api/restaurantApi.tsx:35-38 | removing one name leaves every other name's reading |
| UrlParams.GetReplaceFirst | src/api/restaurantApi.tsx:35-38 | replacing a present name's value changes only that name's reading |
| UrlParams.SearchParams.constructor | src/api/restaurantApi.tsx:34 | a fresh parameter list is empty |
| UrlParams.SearchParams.Set | src/api/restaurantApi.tsx:35-38 | `set` replaces the list by the set-semantics update |
| UrlParams.SearchParams.Append | src/api/salesPerformanceApi.tsx:65-67 | `append` adds the pair at the end |
| RestaurantApi.Join | src/api/restaurantApi.tsx:37 | joining no cuisines gives "" |
| RestaurantApi.Split | src/api/restaurantApi.tsx:37 | splitting always yields at least one piece |
| RestaurantApi.SplitAt | src/api/restaurantApi.tsx:37 | splitting at the first comma takes off the comma-free head |
| RestaurantApi.SplitJoin | src/api/restaurantApi.tsx:37 | splitting the joined text on "," recovers any non-empty list of comma-free names |
| RestaurantApi.EmptySelectionIsEmptyText | src/api/restaurantApi.tsx:37 | `[]` and `[""]` both join to "" |
| RestaurantApi.CreateSearchParams | src/api/restaurantApi.tsx:33-38 | the four `set` calls leave exactly the parameter list of the search state |
| RestaurantApi.SearchParamsReadBack | src/api/restaurantApi.tsx:35-38 | the query and sort are sent verbatim, the page as a decimal string that parses back, the cuisines joined by "," and recoverable |
| RestaurantApi.SearchPath | src/api/restaurantApi.tsx:41 | the path is `/api/restaurant/search/` followed by the city |
| RestaurantApi.QueryKeys | src/api/restaurantApi.tsx:21-49 | search keys differ iff the search states differ; the restaurant key is the same for every id and never equals a search key |
| RestaurantApi.RestaurantResult | src/api/restaurantApi.tsx:9-17 | the lookup yields the response's restaurant, or fails with "Failed to get restaurant" |
| RestaurantApi.SearchResult | src/api/restaurantApi.tsx:39-46 | the search yields the response data, or fails with "Failed to get restaurant" |
| RestaurantApi.SearchRequest | src/api/restaurantApi.tsx:33-51 | a search is issued iff a non-empty city is given, to the city's path with the state's query |
| OrderStatusConfig.TableContents | src/config/order-status-config.ts:9-19 | five entries in order placed, paid, inProgress, outForDelivery, delivered, with their labels |
| OrderStatusConfig.ProgressIncreasing | src/config/order-status-config.ts:10-18 | progress values strictly increase in table order, from 0 to 100 |
| OrderStatusConfig.ValuesDistinct | src/config/order-status-config.ts:9-19 | status values are pairwise distinct |
| OrderStatusHeader.Find | src/components/OrderStatusHeader.tsx:22 | `find` returns the first matching entry, or nothing iff no entry matches |
| OrderStatusHeader.KnownStatus | src/components/OrderStatusHeader.tsx:20-24 | a status in the table maps to its own entry |
| OrderStatusHeader.UnknownStatus | src/components/OrderStatusHeader.tsx:20-24 | an unknown status maps to the first entry, "Placed", 0 |
| OrderStatusHeader.InProgressExample | src/components/OrderStatusHeader.tsx:22 | "inProgress" shows "In Progress" at 50 |
| OrderStatusHeader.ViewFromOneEntry | src/components/OrderStatusHeader.tsx:31-39 | the label and the progress value come from one and the same table entry |
| OrderStatusHeader.ClockTextShape | src/components/OrderStatusHeader.tsx:14-17 | "H:MM": one or two unpadded hour digits, two minute digits zero-padded iff below 10, reading back to the minute of day |
| OrderStatusHeader.LocalTime.constructor | src/components/OrderStatusHeader.tsx:10 | a local time holds the given minute of day |
| OrderStatusHeader.LocalTime.SetMinutes | src/components/OrderStatusHeader.tsx:11-13 | setting the minutes keeps the hour and wraps past midnight |
| OrderStatusHeader.ExpectedDelivery | src/components/OrderStatusHeader.tsx:9-18 | the text is the clock text of (created minute + estimated minutes) mod 1440 |
| OrderStatusHeader.ExpectedDeliveryReadsBack | src/components/OrderStatusHeader.tsx:9-18 | the expected time read back is the wrapped sum |
| ManageRestaurantForm.LoadedRows | src/forms/mange-restarurant-form/ManageRestaurantForm.tsx:86-89 | the edit-load keeps one form row per menu item |
| ManageRestaurantForm.RowsIssuesEmpty | src/forms/mange-restarurant-form/ManageRestaurantForm.tsx:42-47 | the menu rows report no issue iff every row has a name and a price of at least 1 |
| ManageRestaurantForm.Validate | src/forms/mange-restarurant-form/ManageRestaurantForm.tsx:15-55 | a rejection carries exactly the non-empty list of issues: the field issues in schema order, then the image issue unless a type check aborted the object |
| ManageRestaurantForm.ValidateAccepts | src/forms/mange-restarurant-form/ManageRestaurantForm.tsx:15-55 | the form is accepted iff the text fields and numbers are present, cuisines are non-empty, every menu row is valid and an image URL or file is present |
| ManageRestaurantForm.EmptyTextAccepted | src/forms/mange-restarurant-form/ManageRestaurantForm.tsx:17-47 | empty names and an empty menu list pass |
| ManageRestaurantForm.ImageIssueOnImageFile | src/forms/mange-restarurant-form/ManageRestaurantForm.tsx:52-55 | a missing image is the only issue of an otherwise valid form and is reported on `imageFile` |
| ManageRestaurantForm.RowsIssuesPaths | src/forms/mange-restarurant-form/ManageRestaurantForm.tsx:42-47 | every menu-row issue is reported under a `menuItems.` path |
| ManageRestaurantForm.ImageIssueIff | src/forms/mange-restarurant-form/ManageRestaurantForm.tsx:15-55 | the image issue is reported iff no field failed its type check and neither image URL nor file is present, and then it comes after all field issues, also beside size issues |
| ManageRestaurantForm.EmptyCuisinesAndNoImage | src/forms/mange-restarurant-form/ManageRestaurantForm.tsx:37-55 | a form with no cuisine and no image reports both issues, cuisines first |
| ManageRestaurantForm.CoercePriceTrims | src/forms/mange-restarurant-form/ManageRestaurantForm.tsx:45 | `z.coerce.number` trims white space: " 12" and "12 " are 12, blank text is 0 |
| ManageRestaurantForm.CoercePriceSigns | src/forms/mange-restarurant-form/ManageRestaurantForm.tsx:45 | a leading sign is read ("+12" is 12, "-5" is -5); a bare sign or trailing letters are NaN |
| ManageRestaurantForm.CoercePricePadding | src/forms/mange-restarurant-form/ManageRestaurantForm.tsx:45 | white space on either side of a price's text never changes its coerced value |
| ManageRestaurantForm.CoercePriceIntText | src/forms/mange-restarurant-form/ManageRestaurantForm.tsx:45 | the decimal text of any integer, signed or not, coerces to that integer |
| ManageRestaurantForm.NegativePriceBelowOne | src/forms/mange-restarurant-form/ManageRestaurantForm.tsx:45 | a price of "-5" fails the minimum check, not the number check |
| ManageRestaurantForm.DefaultsRejected | src/forms/mange-restarurant-form/ManageRestaurantForm.tsx:72-76 | the untouched defaults fail, with the cuisines message among the issues |
| ManageRestaurantForm.NoRestaurantKeepsDefaults | src/forms/mange-restarurant-form/ManageRestaurantForm.tsx:72-80 | with no restaurant the defaults stay: no cuisines, one blank menu item with price 0 |
| ManageRestaurantForm.FormData.constructor | src/forms/mange-restarurant-form/ManageRestaurantForm.tsx:101 | a fresh `FormData` is empty |
| ManageRestaurantForm.FormData.Append | src/forms/mange-restarurant-form/ManageRestaurantForm.tsx:103-127 | `append` adds the field at the end |
| ManageRestaurantForm.CuisineEntries | src/forms/mange-restarurant-form/ManageRestaurantForm.tsx:114-116 | one field per cuisine |
| ManageRestaurantForm.MenuEntries | src/forms/mange-restarurant-form/ManageRestaurantForm.tsx:117-123 | exactly one name/price pair per menu item |
| ManageRestaurantForm.OnSubmit | src/forms/mange-restarurant-form/ManageRestaurantForm.tsx:100-129 | the fields appended are exactly the serialisation of the values |
| ManageRestaurantForm.AppendHeader | src/forms/mange-restarurant-form/ManageRestaurantForm.tsx:103-113 | the five scalar fields are appended in order |
| ManageRestaurantForm.IndexKeysInjective | src/forms/mange-restarurant-form/ManageRestaurantForm.tsx:114-123 | `cuisines[i]`, `menuItems[i][name]` and `menuItems[i][price]` name different fields for different i |
| ManageRestaurantForm.CuisineEntriesNames | src/forms/mange-restarurant-form/ManageRestaurantForm.tsx:114-116 | every cuisine field's name starts with "c" |
| ManageRestaurantForm.MenuEntriesNames | src/forms/mange-restarurant-form/ManageRestaurantForm.tsx:117-123 | every menu field's name starts with "m" |
| ManageRestaurantForm.TextEntriesNames | src/forms/mange-restarurant-form/ManageRestaurantForm.tsx:103-123 | no text field is named `imageFile` or `imageUrl` |
| ManageRestaurantForm.SerializeLength | src/forms/mange-restarurant-form/ManageRestaurantForm.tsx:100-129 | five scalar fields, one per cuisine, two per menu item, and one for an image file if present |
| ManageRestaurantForm.SerializeCuisineAt | src/forms/mange-restarurant-form/ManageRestaurantForm.tsx:114-116 | cuisine i is field 5 + i, named `cuisines[i]` |
| ManageRestaurantForm.SerializeMenuAt | src/forms/mange-restarurant-form/ManageRestaurantForm.tsx:117-123 | menu item i's name and its price × 100 follow the cuisines, in item order |
| ManageRestaurantForm.SerializeImage | src/forms/mange-restarurant-form/ManageRestaurantForm.tsx:125-127 | `imageFile` is sent iff present, as the last field; `imageUrl` is never sent |
| ManageRestaurantForm.EditLoadParsed | src/forms/mange-restarurant-form/ManageRestaurantForm.tsx:86-89 | after edit-load, a price of p cents becomes p div 100 dollars, cuisines kept |
| ManageRestaurantForm.ResubmitLosesCents | src/forms/mange-restarurant-form/ManageRestaurantForm.tsx:86-122 | resubmitting a loaded item sends (p div 100) × 100, equal to p iff p has no cents |
| MenuItemCard.PriceLabelReadsBack | src/components/MenuItem.tsx:46 | the card shows "$" and the price with two decimals, reading back to the cents |
| MenuItemCard.CardKeyExamples | src/components/MenuItem.tsx:15 | 850 cents read under `_8.5`, 800 cents under `_8` |
| MenuItemCard.KeysAgreeIff | src/components/MenuItem.tsx:15 | the card's key equals the image key the edit form would write for the loaded item iff the price has no cents (below one dollar the loaded price is 0, so the form writes no key at all) |
| MenuItemCard.Card.constructor | src/components/MenuItem.tsx:10-11 | a card starts with no image and no clicks |
| MenuItemCard.Card.LoadImage | src/components/MenuItem.tsx:13-20 | the image becomes the stored value under the card's key when one is stored (non-empty), else stays |
| MenuItemCard.Card.Click | src/components/MenuItem.tsx:24 | a click calls `addToCart` exactly once |
| MenuItemInput.CacheKey | src/forms/mange-restarurant-form/MenuItemInput.tsx:23-39 | a key exists iff name and price are truthy, and is `menuItem_<name>_<price>` |
| MenuItemInput.ZeroTextIsTruthy | src/forms/mange-restarurant-form/MenuItemInput.tsx:23 | the text "0" is truthy and keyed, the number 0 and "" are not |
| MenuItemInput.RefreshKeepsOldImage | src/forms/mange-restarurant-form/MenuItemInput.tsx:22-30 | with no key or nothing stored the preview is kept, not cleared |
| MenuItemInput.RefreshShowsStored | src/forms/mange-restarurant-form/MenuItemInput.tsx:22-30 | a non-empty stored value under the key becomes the preview |
| MenuItemInput.RowInput.constructor | src/forms/mange-restarurant-form/MenuItemInput.tsx:15 | a row starts with no preview |
| MenuItemInput.RowInput.Refresh | src/forms/mange-restarurant-form/MenuItemInput.tsx:22-30 | the effect sets the preview to the refreshed value |
| MenuItemInput.RowInput.HandleImageUpload | src/forms/mange-restarurant-form/MenuItemInput.tsx:32-46 | the first file is stored under the key and shown; with no file or no key nothing changes; a write that throws (quota exceeded) escapes and leaves storage and preview unchanged |
| MenuItemInput.UploadThenRefresh | src/forms/mange-restarurant-form/MenuItemInput.tsx:22-46 | after an upload the row's refresh shows the uploaded image |
| MenuSection.AfterRemoveFrame | src/forms/mange-restarurant-form/MenuSection.tsx:31-35 | at most one cache entry is removed, only when name and price are truthy, and every other entry is untouched |
| MenuSection.DropRow | src/forms/mange-restarurant-form/MenuSection.tsx:36 | row i is removed and the others keep their order |
| MenuSection.UploadThenRemove | src/forms/mange-restarurant-form/MenuSection.tsx:29-37 | removing a row whose image was uploaded deletes that image from the cache |
| MenuSection.Section.constructor | src/forms/mange-restarurant-form/MenuSection.tsx:8-11 | the section holds the given rows and storage |
| MenuSection.Section.RemoveMenuItem | src/forms/mange-restarurant-form/MenuSection.tsx:29-37 | the storage loses the row's cache key as stated and the row is dropped |
| MenuSection.Section.AppendBlank | src/forms/mange-restarurant-form/MenuSection.tsx:46 | "Add items" appends a blank row at the end |
| MenuSection.BlankRowUnfilled | src/forms/mange-restarurant-form/MenuSection.tsx:46 | a blank row has no cache key and fails the menu rule |
| SalesDashboard.FormatHourCases | src/components/Reports/SalesReport/SalesDashboard.tsx:104-108 | 0 is "12 AM", 12 is "12 PM", 1-11 are "h AM", 13-23 are "(h-12) PM" |
| SalesDashboard.FormatHourInjective | src/components/Reports/SalesReport/SalesDashboard.tsx:104-108 | each hour 0-23 has its own label |
| SalesDashboard.CleanName | src/components/Reports/SalesReport/SalesDashboard.tsx:113 | the sanitised name has one character per UTF-16 code unit of the name |
| SalesDashboard.CleanNameAppend | src/components/Reports/SalesReport/SalesDashboard.tsx:113 | sanitising distributes over concatenation |
| SalesDashboard.CleanNameBmp | src/components/Reports/SalesReport/SalesDashboard.tsx:113 | without characters beyond the Basic Multilingual Plane, character i of the result is character i cleaned |
| SalesDashboard.CleanNameAlphabet | src/components/Reports/SalesReport/SalesDashboard.tsx:113 | only [a-z0-9_] appear in the result |
| SalesDashboard.AstralBecomesTwo | src/components/Reports/SalesReport/SalesDashboard.tsx:113 | "Joe🍕" sanitises to "joe__": the emoji's two code units each become "_" |
| SalesDashboard.CleanNameShape | src/components/Reports/SalesReport/SalesDashboard.tsx:113 | only [a-z0-9_] appear; a character beyond the Basic Multilingual Plane becomes "__", any other one character; without such characters, a character becomes "_" iff it is not an ASCII letter or digit, and lower-case letters are kept |
| SalesDashboard.CleanNameIdempotent | src/components/Reports/SalesReport/SalesDashboard.tsx:113 | sanitising a sanitised name changes nothing |
| SalesDashboard.MissingNameIsRestaurant | src/components/Reports/SalesReport/SalesDashboard.tsx:112-114 | a missing or empty name becomes "restaurant"; "Joe's Pizza" becomes "joe_s_pizza" |
| SalesDashboard.FilenameStem | src/components/Reports/SalesReport/SalesDashboard.tsx:111-118 | `name_sales_report_from_to_to` with ".xlsx" or ".pdf" |
| SalesDashboard.PeriodHeaderMatchesKey | src/components/Reports/SalesReport/SalesDashboard.tsx:137-145 | the header is [Date/Week/Month, Revenue], its first cell lower-cased is the row key, and different periods have different keys |
| SalesDashboard.Take | src/components/Reports/SalesReport/SalesDashboard.tsx:245 | `slice(0, n)` is the first min(n, length) items |
| SalesDashboard.ChartItemsPrefixOfPdf | src/components/Reports/SalesReport/SalesDashboard.tsx:510-536 | the PDF lists at most 10 items, the charts at most 5, and the chart items are the first of the PDF's |
| SalesDashboard.Dashboard.constructor | src/components/Reports/SalesReport/SalesDashboard.tsx:57-62 | the dashboard starts with the given range and the daily period |
| SalesDashboard.Dashboard.OnSelect | src/components/Reports/SalesReport/SalesDashboard.tsx:370-373 | the range changes only when both endpoints are picked; the period is kept |
| SalesDashboard.Dashboard.SetPeriod | src/components/Reports/SalesReport/SalesDashboard.tsx:377 | choosing a period changes only the period |
| SalesDashboard.NoRestaurantNoRequest | src/components/Reports/SalesReport/SalesDashboard.tsx:65 | without a restaurant id no report is requested |
| SalesPerformanceApi.SalesParams | src/api/salesPerformanceApi.tsx:63-67 | the three guarded appends leave exactly the parameter list of the inputs |
| SalesPerformanceApi.SalesParamsMeaning | src/api/salesPerformanceApi.tsx:56-67 | startDate and endDate are present iff given; period defaults to daily and is always sent; the order is startDate, endDate, period |
| SalesPerformanceApi.QueryKeyDistinguishes | src/api/salesPerformanceApi.tsx:87 | keys differ iff restaurant id, start, end or period differ |
| SalesPerformanceApi.ReportResult | src/api/salesPerformanceApi.tsx:69-83 | the report is the response data, or fails with "Failed to fetch sales performance data" |
| SalesPerformanceApi.SalesRequest | src/api/salesPerformanceApi.tsx:60-91 | a request is issued iff the restaurant id is non-empty, and it always carries a period |
| WebStorage.Storage.constructor | src/pages/DetailPage.tsx:29 | storage starts with the given items |
| WebStorage.Storage.GetItem | src/pages/DetailPage.tsx:29 | `getItem` finds a value iff the key is present, and returns it |
| WebStorage.Storage.SetItem | src/pages/DetailPage.tsx:57-60 | `setItem` writes exactly that key |
| WebStorage.Storage.RemoveItem | src/forms/mange-restarurant-form/MenuSection.tsx:34 | `removeItem` deletes exactly that key |
| ReactiveLocalStorage.InitialReadFallbacks | src/hooks/useReactiveLocalStorage.ts:4-14 | the initial value is used for an empty key, an absent or empty item, and an item that fails to parse |
| ReactiveLocalStorage.ReadAfterWrite | src/hooks/useReactiveLocalStorage.ts:9-31 | a fresh hook on a key starts from the last value written there |
| ReactiveLocalStorage.ReactiveValue.constructor | src/hooks/useReactiveLocalStorage.ts:4-14 | the state starts as the initial read |
| ReactiveLocalStorage.ReactiveValue.WriteEffect | src/hooks/useReactiveLocalStorage.ts:27-36 | the value is stored under a non-empty key unless the write fails, which is swallowed; a `storage` event is dispatched exactly when the write succeeds |
| ReactiveLocalStorage.ReactiveValue.Set | src/hooks/useReactiveLocalStorage.ts:27-36 | setting changes the value, stores it under a non-empty key unless the write fails, and dispatches a `storage` event exactly when it is stored |
| ReactiveLocalStorage.ReactiveValue.OnStorageEvent | src/hooks/useReactiveLocalStorage.ts:16-25 | a change notice replaces the value with the parsed item; an empty key or null item leaves it; an unparsable item throws |
| ReactiveLocalStorage.Mount | src/hooks/useReactiveLocalStorage.ts:4-36 | mounting reads the initial value and writes it back under a non-empty key unless the write fails, dispatching a `storage` event exactly when it is written |
| ReactiveLocalStorage.SetSeenBySibling | src/hooks/useReactiveLocalStorage.ts:16-36 | after a set on one hook, the dispatched event brings that hook and a second hook on the same key to the new value, without a throw |
| DriverStep.StoredStep | src/components/DriverJS/components/DriverStep.tsx:13-22 | the stored step keeps key and popover, and carries the element only when the node exists |
| DriverStep.Register | src/components/DriverJS/components/DriverStep.tsx:18-26 | registration returns a fresh array: the old steps with the new step placed at its index |
| DriverStep.PlacedMeaning | src/components/DriverJS/components/DriverStep.tsx:20-22 | the step lands at its index, other positions are kept, and the array grows with empty slots to index + 1 |
| DriverStep.PlacedOverwrites | src/components/DriverJS/components/DriverStep.tsx:22 | re-registering an index overwrites the earlier step |
| DriverStep.RegisteredSlotsHold | src/components/DriverJS/components/DriverStep.tsx:22 | after registrations with distinct indices, each index holds its step |
| DriverStep.FilledSlotsRegistered | src/components/DriverJS/components/DriverStep.tsx:22 | every filled slot, and the last slot, was registered |
| DriverStep.GapFree | src/components/DriverJS/components/DriverStep.tsx:22 | registering exactly the indices 0..n-1 in any order gives n filled slots in index order |
| DriverStep.DetailTourRegistration | src/config/DriverJS/RestaurantDetailPage.ts:10-37 | the detail page's four steps, registered out of order, fill slots 0-3 in index order |
| DriverProvider.StorageKey | src/components/DriverJS/provider/DriverProvider.tsx:32 | completion is stored under the tutorial key, or under "" without one |
| DriverProvider.Present | src/components/DriverJS/provider/DriverProvider.tsx:48 | filtering drops exactly the empty slots |
| DriverProvider.PresentAppend | src/components/DriverJS/provider/DriverProvider.tsx:48 | filtering keeps the order of the steps |
| DriverProvider.PresentFilled | src/components/DriverJS/provider/DriverProvider.tsx:48 | filtering a gap-free array hands over every step in place |
| DriverProvider.HandedInIndexOrder | src/components/DriverJS/provider/DriverProvider.tsx:48 | for steps registered at 0..n-1, the driver gets n steps, each at its index |
| DriverProvider.NoKeyStartsUncompleted | src/components/DriverJS/provider/DriverProvider.tsx:32 | without a tutorial key the tour starts as not completed |
| DriverProvider.CompletionSurvivesReload | src/components/DriverJS/provider/DriverProvider.tsx:32-41 | with a key, a stored completion makes a fresh provider start completed |
| DriverProvider.Provider.constructor | src/components/DriverJS/provider/DriverProvider.tsx:30-44 | the flag is read with default false and written back; a driver is created iff not completed; no steps, no tour |
| DriverProvider.Provider.CompletionEffect | src/components/DriverJS/provider/DriverProvider.tsx:35-44 | a driver is created only when not completed |
| DriverProvider.Provider.StepsEffect | src/components/DriverJS/provider/DriverProvider.tsx:46-54 | the tour runs iff not completed, with a slot and a driver, and then gets the filtered steps |
| DriverProvider.Provider.RegisterStep | src/components/DriverJS/provider/DriverProvider.tsx:46-54 | a registration places the step and restarts the tour with the filtered steps unless completed |
| DriverProvider.Provider.OnDestroyStarted | src/components/DriverJS/provider/DriverProvider.tsx:39-42 | closing sets completed, stores it under a non-empty key, and stops the tour |
| DriverProvider.SetStepsVia | src/components/DriverJS/provider/DriverProvider.tsx:24-26 | inside a provider registration places the step; outside one it changes nothing |

## Left out

- Network calls are parameters:
  - HTTP via axios, react-query caching, retries and scheduling, Auth0 tokens, toasts and the Stripe redirect.
  - A response is either received with a body or failed.
  - `refetchOnWindowFocus: false` is recorded as a constant only.
- src/api/myRestaurantApi.tsx, src/api/myUserApi.ts and src/api/orderApi.tsx are not part of this model. They are network wrappers with no rules of their own.
- Percent-encoding of the query string (the application/x-www-form-urlencoded serializer of the WHATWG URL Standard) is not modelled. Parameters are the key/value list before encoding.
- Floating-point conversions are not modelled:
  - The delivery price is kept as exact cents on the form's way in and out.
  - Menu-form prices are whole dollars.
  - Fractional-dollar text is treated like any other non-number text (see ManageRestaurantForm.CoercePrice below).
- Dates and time zones are simplified:
  - `Date`, date-fns `format` and `toISOString` are not modelled.
  - A time is a minute of the local day, so daylight-saving changes are not modelled.
  - Dashboard dates arrive as already formatted strings.
- From the sales dashboard, these are not modelled: Excel and PDF export and layout, `formatCurrency` (Intl.NumberFormat), chart rendering, and the `exportLoading` flag. The top-N slices they use are modelled.
- JSON text syntax is not modelled. The codec is a self-delimiting encoding with the same round-trip and parse-failure behaviour.
- Cart.CartFromJson: a stored value whose shape is not a list of cart lines is treated as a failed load. JavaScript would accept it and fail later.
- UserProfileForm.Issues: the email is modelled as an optional string, and zod's type errors for non-string input are not modelled.
- ManageRestaurantForm.CoercePrice: `Number()` is modelled on optionally signed decimal integers after trimming. Decimal fractions, exponents ("1e1"), hex, octal and binary prefixes ("0x10") and "Infinity" are treated as NaN, although JavaScript reads them as numbers. Only the JavaScript white-space characters listed in the model are trimmed: the other Unicode space separators are not.
- ManageRestaurantForm.Validate: zod's `required_error`/`invalid_type_error` wording for a missing number and the NaN message are collapsed into one issue per field.
- src/types.ts is not part of this model. Its records are restated in the Types module with only the fields the rules read.
- React render and effect scheduling are not modelled. Effects are methods the caller invokes in the order React runs them. Late-response races and re-render cycles are not modelled.
- Clicks on an order-summary row pass that row's line to `DetailPage.Page.RemoveFromCart`. The row-rendering loop itself is not modelled.
- driver.js is opaque. Creating, driving and destroying a tour are recorded as the `driverCreated`, `driving` and `handed` fields.
- `useDriver` (a context accessor) is folded into DriverProvider.SetStepsVia.
- The popover text tables in the tour configuration are not modelled. Only the restaurant-detail step indices are used.
- The FileReader data URL is a parameter: the upload hands over the files' data URLs.
- SalesDashboard.CleanName: the `/[^a-z0-9]/gi` class is modelled on ASCII only. Non-ASCII letters that JavaScript's case-insensitive matching might fold are replaced by "_". Strings are sequences of code points; a character beyond the Basic Multilingual Plane stands for its two UTF-16 code units, and a lone surrogate cannot be written.
- CheckoutButton: `loginWithRedirect` is recorded only as the `returnTo` it carries. The Auth0 redirect itself is not modelled.
