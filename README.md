# Stock tracker view and audit-log logic, modelled in Dafny

The application (`app.js`) is a browser client for a warehouse stock list
kept in a remote document store. Most of it wires the store and the page
together. This project models the sequential logic inside that wiring, which
decides what a user sees and what goes into the audit log:

- the product view filter: a case-insensitive name search plus an optional
  exact category match (`applyProductFilters`);
- the per-category stock totals that feed the bar chart (`renderChart`). The
  sentinel bucket `"Tanpa Kategori"` takes products with no category;
- the signed `change` text of each history record for update, create and
  delete, plus a reader that recovers the number from it;
- the free-text filter over history rows (`renderHistoryTable`);
- `escapeHtml`;
- the guards of the "add category" and "save product" handlers;
- the module state that the snapshot callbacks reassign, as a class `View`.

Files and modules: `wrappers.dfy` (Option, Result), `text.dfy` (ASCII
lower-casing, substring search, trimming, decimal text), `sequences.dfy`
(filter and subsequence), `products.dfy`, `chart.dfy`, `changes.dfy`,
`history.dfy`, `html.dfy`, `validation.dfy`, `handlers.dfy` (the submit and
click handlers as functions from inputs to the write they perform) and
`view_state.dfy`.

The handlers read DOM inputs, the store and the user's answer to `confirm`.
These become parameters: the search text, the category filter, the form
fields, the stock read back by the update path and the confirmation.

Three facts about the code shape the model:

- The code has no transactional add/subtract engine. It has no "insufficient
  stock" or "unknown product" errors and no positive-quantity rule. A save
  writes the parsed quantity as the new stock, and zero and negative
  quantities are accepted.
- An update reads the old stock and then writes, with no transaction.
- The sentinel bucket for products without a category is called
  `"Tanpa Kategori"`. A category with exactly that name shares the bucket
  (`Chart.BucketKeyCases`).

## Model

| member | source | states |
|---|---|---|
| `Text.Lower` | app.js:263 | lower-casing keeps the length and maps each character on its own (ASCII `A`-`Z` only) |
| `Text.ContainsIffInfix` | app.js:266 | `includes` holds exactly when some window of the text equals the pattern |
| `Text.ContainsEmpty` | app.js:266 | every text includes the empty string |
| `Text.TrimEmptyIffBlank` | app.js:116-117 | the trimmed text is empty exactly when the input is all whitespace |
| `Text.ParseNatToString` | app.js:158 | the decimal digits of a number parse back to that number |
| `Sequences.Filter` | app.js:265-269 | every kept element satisfies the predicate, and the result is no longer than the input |
| `Sequences.FilterIsSubsequence` | app.js:265 | the filter's result is an order-preserving subsequence of its input |
| `Sequences.FilterMembership` | app.js:265 | an element is in the result exactly when it is in the input and satisfies the predicate |
| `Sequences.FilterKeepsAll` | app.js:265 | when every element satisfies the predicate, the result is the input |
| `Sequences.FilterCount` | app.js:265 | a kept value occurs in the result exactly as often as in the input, and a dropped value not at all |
| `Products.ProductFilterSpec` | app.js:262-269 | the filtered view is an order-preserving subsequence of `allProducts`. A product is kept exactly when its lower-cased name (missing as "") includes the lower-cased search text and its category equals a non-empty filter. Empty search and empty filter keep every product. Each kept product occurs as often as in `allProducts` |
| `Products.SearchIgnoresCase` | app.js:263 | search texts that lower-case alike give the same view |
| `Products.SearchExample` | app.js:263-269 | searching "ap" in [Apple, Carrot] gives [Apple] |
| `Products.CategoryExample` | app.js:264-269 | filtering [Apple, Carrot] by category "Veg" gives [Carrot] |
| `Chart.BucketKeyCases` | app.js:280 | a product goes to "Tanpa Kategori" exactly when its category is missing, empty or that name, and otherwise to its own category |
| `Chart.BucketOrderSpec` | app.js:278-284 | the chart's labels have no repeats and are exactly the buckets some product falls in |
| `Chart.SumForAbsent` | app.js:281 | a bucket no product falls in sums to zero |
| `Chart.BucketsSumToTotal` | app.js:279-282 | the bucket totals add up to the total stock, so no product is dropped or counted twice |
| `Chart.GroupingExample` | app.js:278-282 | Apple/Fruit/5 and Carrot/Veg/3 give labels [Fruit, Veg] with totals 5 and 3. A product with an empty category goes to "Tanpa Kategori" |
| `Chart.GroupByCategory` | app.js:277-285 | the loop builds labels in first-seen order (`BucketOrder`, whose keys `BucketOrderSpec` characterises) with distinct keys. The dictionary has exactly those keys, each value is the sum of stock (missing as 0) of that bucket's products, and the values add up to the total stock |
| `Changes.ChangeString` | app.js:154-158 | the update's change text starts with `+` exactly when the delta is at least 0 (`-` otherwise), followed by the digits of the magnitude |
| `Changes.DecodeChangeString` | app.js:158 | reading the change text back gives the delta |
| `Changes.ChangeStringInjective` | app.js:158 | different deltas produce different change texts |
| `Changes.UpdateChange` | app.js:149-158 | the update record is the sign-and-digits text of new stock minus old stock (`ChangeString`), so it decodes to that delta. A missing old stock gives exactly "NaN", which does not decode |
| `Changes.CreateChangeAsWrittenMalformed` | app.js:174 | the create text as written, for a negative stock, does not decode ("+-5") |
| `Changes.CreateChange` | app.js:174 | the create record decodes to the stock created, equals the source's text for every stock of 0 or more, and is the update path's encoding of the stock otherwise |
| `Changes.DeleteChangeAsWrittenMalformed` | app.js:245 | the delete text as written, for a negative or missing stock, does not decode ("--5", "-undefined") |
| `Changes.DeleteChange` | app.js:245 | the delete record decodes to minus the stock removed, equals the source's text for every stock of 0 or more, and is the update path's encoding of minus the stock otherwise |
| `History.HistoryFilterSpec` | app.js:328-333 | the shown rows are an order-preserving subsequence of the delivered ones. A row is shown exactly when the lower-cased `action name change by` (missing as "") includes the lower-cased term. An empty term shows all rows. Each shown row occurs as often as among the delivered rows |
| `History.FieldMatchFindsRow` | app.js:331-332 | a term found in any one field, ignoring case, finds the row |
| `History.StoredFoundByNameOrActor` | app.js:300-333 | once an entry is logged, searching for its product name or for its user finds its record |
| `Html.EscapeChar` | app.js:411-413 | each of `& < > " '` becomes an entity starting with `&`; every other character is unchanged |
| `Html.Escape` | app.js:411-413 | the escaped text contains none of `< > " '` and is at least as long as the input |
| `Html.EscapeHtml` | app.js:410-414 | `null`/`undefined` map to "", unescaping a present text's output gives the text back, and the output contains none of `< > " '` |
| `Html.EscapeConcat` | app.js:411 | escaping a concatenation escapes each part (replacement is per character) |
| `Html.EscapePlain` | app.js:411-413 | text without the five characters is returned unchanged |
| `Html.UnescapeEscape` | app.js:410-414 | unescaping the escaped text returns the input |
| `Validation.SameNameExistsIff` | app.js:118 | the duplicate check holds exactly when some existing name equals the new one ignoring case |
| `Validation.ValidateNewCategory` | app.js:115-120 | a category is refused as empty exactly when the trimmed input is empty. It is refused as a duplicate exactly when it is non-empty and an existing name matches ignoring case. Otherwise it is accepted as the trimmed input, matching no existing name |
| `Validation.CaseVariantRefused` | app.js:118-120 | a case variant of an existing category is refused |
| `Validation.ValidateProductForm` | app.js:132-143 | a missing user name is reported first. The form is refused exactly when the trimmed name is empty, no category is chosen or the quantity is not a number. Otherwise it yields the trimmed name, the category and the quantity, zero and negative included |
| `Validation.BlankNameRefused` | app.js:137-142 | a whitespace-only name is refused |
| `Handlers.SubmitProduct` | app.js:130-183 | a refused form writes nothing. A valid one with an id updates when the document is still stored, and writes nothing when it is gone (the read at app.js:150 throws, and app.js:180-181 only alerts). Without an id it creates. The record carries the action, name and user. Its change is `Changes.ChangeString` of new minus old stock (update; exactly "NaN" when the stored stock is missing) or `Changes.CreateChange` of the stock (create), each decoding to that number |
| `Handlers.FindById` | app.js:224 | the found product is the first in the list with that id, and none is found only when no product has the id |
| `Handlers.ProductClick` | app.js:212-246 | a click without action or id does nothing. The alert happens exactly when no user is set. With a user set, a missing product, or an action other than edit and delete, does nothing. Edit loads the found product exactly when one is found. An unconfirmed delete is cancelled. Delete happens exactly when a found product is confirmed, and its record's change is `Changes.DeleteChange` of the product's stock, which decodes to minus that stock |
| `Handlers.CreateOpensLedger` | app.js:164-176 | a create's record alone sums to the new product's stock |
| `Handlers.UpdateKeepsLedger` | app.js:146-160 | if the records so far sum to the stock the update reads, its record brings the sum to the stock written |
| `Handlers.DeleteClosesLedger` | app.js:238-247 | if the records sum to the product's stock, its delete record brings the sum to zero |
| `ViewState.View.constructor` | app.js:46-54 | all cached lists start empty |
| `ViewState.View.OnCategoriesSnapshot` | app.js:97-99 | the cached categories are replaced by the snapshot |
| `ViewState.View.ApplyProductFilters` | app.js:262-272 | `filteredProducts` becomes the filter of `allProducts`, and the chart buckets returned for it have the totals `GroupByCategory` guarantees |
| `ViewState.View.OnProductsSnapshot` | app.js:188-191 | `allProducts` is replaced wholesale by the snapshot and the filters are re-applied to it |
| `ViewState.View.RenderHistoryTable` | app.js:328-333 | the rows shown are the history filter of the cached rows |
| `ViewState.View.OnHistorySnapshot` | app.js:322-325 | the cached rows are replaced by the snapshot and filtered for display |

## Left out

- Store calls (`addDoc`, `updateDoc`, `deleteDoc`, `getDoc`, `onSnapshot`, `serverTimestamp`) are foreign library calls. Their results become parameters. Their failures are not modelled, except for the update whose document is gone (`Handlers.SubmitProduct`).
- Subscription handles, and releasing the old subscription before a new one (app.js:186, 312), are left out: they are push callbacks from the store.
- The read-then-write of the update path (app.js:149-152) is not atomic, and concurrent clients can interleave. Races, transactions and a no-negative-stock invariant are not modelled, because the code implements none of them.
- `logHistory` swallows a failed append (app.js:306-308). The model returns the record every handler asks to write, and does not model a write that fails.
- DOM rendering, `innerHTML` building, `alert`, the Chart.js instance (app.js:194-210, 287-296, 334-345) and the edit-form filling (app.js:228-232) are UI. `confirm` is a parameter.
- Export to XLSX/CSV and `downloadBlob` (app.js:371-398) are library and file I/O.
- The user-name button (app.js:73-92), `localStorage`, and the theme and dark-mode handling (app.js:401-407) are persistence and UI.
- Quick and custom date ranges (app.js:348-367) depend on the host's `Date` and time zone and only shape a store query.
- `Text.Lower` and `Text.Trim` are stand-ins. `Lower` folds only ASCII `A`-`Z`, and `Trim` strips a fixed subset of JavaScript's whitespace. JavaScript's full Unicode `toLowerCase` and `trim` are not modelled.
- `parseInt(qty, 10)` is not modelled. The quantity arrives already parsed, as `Option<int>`, with `None` for NaN.
- JavaScript numbers are doubles. The model uses unbounded integers, so precision loss above 2^53 is not modelled. Neither is the exponent notation `${n}` uses above 10^21.
- `Chart.GroupByCategory`: labels come in first-seen order. `Object.keys` lists integer-like keys (a category named "2024") first, in numeric order, and the model does not capture that.
- `Chart.GroupByCategory`: every key starts absent from the dictionary. In JavaScript, a category named like an inherited member of `Object.prototype` (`constructor`, `toString`, `__proto__`) finds that member instead of `undefined`.
- `Handlers.ProductClick`: a product without a name is logged with name "". The source passes `undefined`, which the store refuses, and `logHistory` then swallows the error.
- `Handlers.SubmitProduct` and `Handlers.ProductClick` log the corrected create and delete change texts (see Findings). The source texts are modelled separately, by `Changes.CreateChangeAsWritten` and `Changes.DeleteChangeAsWritten`.
- Documents with fields of the wrong type (a numeric name, a string stock) are not modelled. Each field is either present with its expected type or missing.

## Findings

| source | as written | input that shows it | evidently intended | confidence | as-written member | corrected member |
|---|---|---|---|---|---|---|
| app.js:174 | the create record's change is `"+" + stock` | quantity "-5" passes the form guard and logs "+-5", which is not a signed number | the signed stock created, "-5", as the update path at app.js:158 encodes it | medium, not executed | `Changes.CreateChangeAsWrittenMalformed` | `Changes.CreateChange` |
| app.js:245 | the delete record's change is `"-" + stock` | deleting a product of stock -5 logs "--5"; one without a stock field logs "-undefined" | minus the stock removed, "+5" (missing stock read as 0, as app.js:200 and 281 do) | medium, not executed | `Changes.DeleteChangeAsWrittenMalformed` | `Changes.DeleteChange` |
