# proto-kit explorer: list state, query building and display rules

This project models the decision and transformation rules of the proto-kit
blockchain explorer's web front end. The explorer lists blocks,
transactions, batches and settlements from a GraphQL indexer. The model
leaves out rendering and the network. It covers:

- **List state in the URL** (`QueryParams`). The `useQueryParams` hook
  decodes the page and the filters from the location. It checks every
  filter against a typed schema, deletes the invalid ones in place, and
  writes `page`, `view` and `filters` back into the query string. Defaults
  are omitted and every other parameter is kept. The hook is the class
  `QueryParams.ListState`. Its cleaning loop is a method with loop
  invariants. The query string is an ordered list of name/value pairs with
  the get/set/delete rules of section 6.2 of the WHATWG URL Standard
  (`SearchParams`). The nested `filters` value is serialised and parsed as
  `application/x-www-form-urlencoded`, following section 5 of the same
  standard. It is read back through the string constructor, which drops one
  leading `?` first (`SearchParams.FromString`).
- **Where clauses**. `Utils.BuildWhere` is the shared `buildWhere`.
  `Blocks.QueryTransformer` is the blocks page's transformer with its
  `hideEmpty` rule. Both are loops proved against fold functions, with
  lemmas giving the clause each key receives.
- **Request windows and pagination**. This covers `skip`/`take`, which is
  clamped on the settlements and batches pages and not clamped on the
  blocks and transactions pages. It also covers the previous/next rules of
  the pager and the page parameter written when the user navigates.
- **Response-to-row mappings** with their fallbacks, and the state each
  list page or the dashboard is left in after a fetch succeeds or fails.
- **Form and table helpers**:
  - the digit-only sanitiser and paste guard;
  - `{field}` path templates;
  - submit serialisation and form defaults;
  - the filter panel's clear sequence, as class `FilterPanel.FilterForm`;
  - cell selection in a table row;
  - the list's display predicates.
- **Global search**: height versus hash mode, the result order and
  captions, and routing on click.
- **Header navigation**: the active-item rule.
- **Column picker**: the checkbox map, as class `ColumnPicker.CheckboxMenu`.

Shared modules:

- `Js` models the JavaScript `Number()` of a decimal string,
  `Number.prototype.toString`, and a few string helpers.
- `Records` models plain objects used as dictionaries. A record is a list
  of entries with distinct keys in insertion order, with assignment and
  `delete`.
- `ListPage` holds the fetch-state pattern shared by the four list pages.

Where the code and its documentation differ, the model follows the code:

- The hook never reads `view` from the URL. The initial view is always
  every column key.
- A page is decoded with `Number(x) || 1`, so a negative page such as
  `-3` is kept. The blocks and transactions pages then send a negative
  `skip`; `Blocks.NegativePageRequested` shows this.
- In the transactions list, the `status` column of a row holds an object,
  so the default cell text for that column is `[object Object]`. The
  column shows the custom renderer instead.

## Model

| member | source | states |
|---|---|---|
| Js.ToNumberIntToString | src/hooks/use-query-params.tsx:62 | `Number(n.toString())` is `n` for every integer `n`, so a page written to the URL reads back as the same number |
| Js.IntToStringTruthy | src/hooks/use-query-params.tsx:53 | a non-zero page's decimal form parses to a truthy number, so `\|\| 1` keeps it |
| Js.IntToString | src/hooks/use-query-params.tsx:62 | `n.toString()` is a canonical decimal numeral: digits without leading zeros, with `-` exactly for negatives and never `-0` |
| Js.CanonicalNatUnique | src/hooks/use-query-params.tsx:62 | a digit string without leading zeros is the numeral written for its own value |
| Js.CanonicalIntUnique | src/hooks/use-query-params.tsx:62 | every canonical integer text is `toString` of the number it reads as, so `toString` maps the integers one-to-one onto the canonical texts |
| Js.Take | src/components/search/GlobalSearch.tsx:159 | `substring(0, n)`: the result has length min(n, \|s\|) and is a prefix of `s` |
| Js.Lower | src/components/ui/FilterBuilder.tsx:59 | `toLowerCase` keeps the length and lowers each character; no upper-case ASCII letter remains |
| Records.Find | src/hooks/use-query-params.tsx:44-46 | looking up a key gives nothing exactly when the object lacks that key |
| Records.AssignFind | src/hooks/use-query-params.tsx:45 | after `r[k] = v`, key `k` reads `v` and every other key reads as before |
| Records.AssignKeys | src/hooks/use-query-params.tsx:45 | assigning keeps the key order; a new key goes last and an existing key keeps its place |
| Records.AssignDistinct | src/hooks/use-query-params.tsx:45 | assignment never duplicates a key |
| Records.RemoveFind | src/hooks/use-query-params.tsx:76 | after `delete r[k]`, `k` is absent and every other key reads as before |
| Records.AssignAllDistinct | src/hooks/use-query-params.tsx:44-46 | assigning distinct entries in order into an object rebuilds exactly those entries |
| Records.RemoveMiddle | src/hooks/use-query-params.tsx:74-78 | deleting a key that occurs once leaves the entries around it in order |
| SearchParams.Get | src/hooks/use-query-params.tsx:38 | `get` gives nothing exactly when no pair carries the name |
| SearchParams.DeleteGet | src/hooks/use-query-params.tsx:64 | after `delete(name)` the name is absent and every other name reads as before |
| SearchParams.DeleteIdempotent | src/hooks/use-query-params.tsx:64 | deleting twice is deleting once |
| SearchParams.DeleteCommutes | src/hooks/use-query-params.tsx:64-85 | deletes of two names can be done in either order |
| SearchParams.SetGet | src/hooks/use-query-params.tsx:62 | after `set(name, v)` the name reads `v` and every other name reads as before |
| SearchParams.SetCount | src/hooks/use-query-params.tsx:62 | after `set` exactly one pair carries the name |
| SearchParams.SetOtherCount | src/hooks/use-query-params.tsx:62 | `set` changes the number of pairs of no other name |
| SearchParams.SetDelete | src/hooks/use-query-params.tsx:62 | `set` changes nothing outside the name it sets: deleting that name afterwards gives the same list as deleting it before |
| SearchParams.SetFixed | src/hooks/use-query-params.tsx:62 | setting a name to the single value it already has leaves the list unchanged |
| SearchParams.UnescapeEscape | src/hooks/use-query-params.tsx:83 | percent-decoding undoes percent-encoding for every string |
| SearchParams.ParseSerialize | src/hooks/use-query-params.tsx:80-83 | parsing a serialised pair list gives back the same pairs in the same order |
| SearchParams.FromStringQuestionMark | src/hooks/use-query-params.tsx:41 | `new URLSearchParams("?")` holds no pairs |
| SearchParams.FromStringDropsMark | src/hooks/use-query-params.tsx:41 | the string constructor reads `"?" + s` as the pairs of `s` |
| SearchParams.SerializeHead | src/hooks/use-query-params.tsx:83 | serialised text never starts with `?`, because the encoder escapes it |
| SearchParams.FromStringSerialize | src/hooks/use-query-params.tsx:80-83 | reading serialised text back through the string constructor gives the same pairs in the same order |
| QueryParams.IsValidFilter | src/hooks/use-query-params.tsx:8-29 | a valid value is present and non-empty, and its key is declared. For a boolean field it is valid iff it is `"true"`. For a number field it is valid iff `Number` does not give NaN. For a string field every non-empty value is valid |
| QueryParams.PageNumber | src/hooks/use-query-params.tsx:53 | `Number(x) \|\| 1`: an absent, zero or non-numeric page gives 1, otherwise the parsed number; never 0 |
| QueryParams.InitialView | src/hooks/use-query-params.tsx:35 | the initial view is every column key in declaration order |
| QueryParams.ParamEntries | src/hooks/use-query-params.tsx:44-46 | the `forEach` copy keeps every pair, in order, as a present value |
| QueryParams.DecodeFiltersDistinct | src/hooks/use-query-params.tsx:40-46 | the decoded filter object never holds a key twice |
| QueryParams.ValidEntriesExact | src/hooks/use-query-params.tsx:74-78 | an entry survives cleaning iff it was present and valid |
| QueryParams.ValidEntriesAllValid | src/hooks/use-query-params.tsx:74-78 | every entry left after cleaning is valid |
| QueryParams.ValidEntriesOfValid | src/hooks/use-query-params.tsx:74-78 | cleaning all-valid filters changes nothing |
| QueryParams.ValidEntriesIdempotent | src/hooks/use-query-params.tsx:74-78 | cleaning twice is cleaning once |
| QueryParams.ValidEntriesDistinct | src/hooks/use-query-params.tsx:74-78 | cleaning keeps keys distinct |
| QueryParams.ParamEntriesOfValid | src/hooks/use-query-params.tsx:80-82 | turning valid filters into pairs and back gives the same filters |
| QueryParams.EncodePage | src/hooks/use-query-params.tsx:61-65 | `page` is absent after writing iff the page is 1; otherwise it is the page's decimal form |
| QueryParams.EncodeView | src/hooks/use-query-params.tsx:67-72 | `view` is absent iff the joined view equals the joined column keys; otherwise it is the joined view |
| QueryParams.ViewOmittedIffDefault | src/hooks/use-query-params.tsx:67-72 | for keys without commas, `view` is omitted iff the view is exactly the column keys |
| QueryParams.EncodeFilters | src/hooks/use-query-params.tsx:74-86 | `filters` is written iff some filter is valid, and it is then the serialised valid entries in order |
| QueryParams.EncodeKeepsOtherParams | src/hooks/use-query-params.tsx:59-91 | apart from `page`, `view` and `filters`, the written query string is the current one unchanged |
| QueryParams.PageRoundTrip | src/hooks/use-query-params.tsx:53-65 | decoding the page from the written URL gives the page back |
| QueryParams.FiltersRoundTrip | src/hooks/use-query-params.tsx:38-86 | decoding the filters from the written URL gives exactly the valid filters |
| QueryParams.EncodeStable | src/hooks/use-query-params.tsx:59-91 | writing again from the decoded page and filters reproduces the same query string, so the effect reaches a fixed point |
| QueryParams.WrittenCountOne | src/hooks/use-query-params.tsx:61-86 | each written parameter occurs exactly once |
| QueryParams.JoinInjective | src/hooks/use-query-params.tsx:68 | for keys without commas, equal comma-joins mean equal key lists |
| QueryParams.ListState.constructor | src/hooks/use-query-params.tsx:35-53 | the initial state: the page decoded from the URL, every column key as the view, and the filters read from the `filters` parameter by the string constructor (one leading `?` dropped) |
| QueryParams.ListState.SetPage | src/hooks/use-query-params.tsx:93 | `setPage` replaces the page |
| QueryParams.ListState.SetView | src/hooks/use-query-params.tsx:93 | `setView` replaces the view |
| QueryParams.ListState.SetFilters | src/hooks/use-query-params.tsx:93 | `setFilters` replaces the filters |
| QueryParams.ListState.ResyncPage | src/hooks/use-query-params.tsx:55-57 | the page is re-read from the URL |
| QueryParams.ListState.DeleteInvalidFilters | src/hooks/use-query-params.tsx:74-78 | the in-place loop leaves exactly the valid entries, in order, and all are valid |
| QueryParams.ListState.Sync | src/hooks/use-query-params.tsx:59-91 | the effect cleans the filters in place and returns the query string written from the page, the view and the filters |
| Utils.Coerce | src/lib/utils.ts:24-28 | the value is numeric iff the key is declared `"number"`, and is then `Number(value)`; otherwise it is the string unchanged |
| Utils.BuildWhere | src/lib/utils.ts:15-34 | the loop builds the fold of the filters into the where map; absent filters give an empty map |
| Utils.WhereOfFind | src/lib/utils.ts:21-30 | a key maps to `{ equals: coerced value }` iff its value is present and non-empty |
| Utils.WhereOfDistinct | src/lib/utils.ts:30 | each key occurs at most once in the where map |
| Pagination.NumberedLinks | src/components/pagination.tsx:21-75 | the links are consecutive and contain the current page; `page-1` is shown iff `page > 1`, and `page+1` iff `page*10 < total`, a missing total counting as 0 |
| Pagination.SinglePage | src/components/pagination.tsx:24-66 | with at most 10 entries, page 1 shows no neighbour link |
| Pagination.NavigateSetsPage | src/components/pagination.tsx:27-29 | navigating sets `page` to the target's decimal form, exactly once, and keeps every other parameter; a non-zero target decodes back to itself |
| ListPage.ClampedSkip | src/components/settlements/settlementsPageClient.tsx:91 | `10*(max(1,page)-1)` is never negative, is a multiple of 10, and equals the unclamped skip from page 1 on |
| ListPage.SkipBelowFirstPage | src/components/blocks/BlocksPageClient.tsx:135 | below page 1 the unclamped skip is negative and differs from the clamped one |
| ListPage.NextPageWindow | src/components/pagination.tsx:25 | a next page exists iff the next page's window starts before the total |
| ListPage.WhereOrUndefined | src/components/transactions/TransactionsPageClient.tsx:136 | `where` is sent as undefined iff the built map has no keys |
| ListPage.RequestVariables | src/components/transactions/TransactionsPageClient.tsx:133-137 | `take` is 10, `skip` is as given, and `where` is omitted iff empty |
| ListPage.CountText | src/components/settlements/settlementsPageClient.tsx:114 | `count?.toString() \|\| "0"` is `"0"` for a missing count and otherwise the count's `toString()`; the fallback is exactly `toString` of 0 |
| ListPage.CountTextNumber | src/components/settlements/settlementsPageClient.tsx:114-119 | `count?.toString() \|\| "0"` reads as the count, or 0 when the count is missing |
| ListPage.Started | src/components/blocks/BlocksPageClient.tsx:133 | starting a fetch sets loading and keeps rows and total |
| ListPage.Loaded | src/components/blocks/BlocksPageClient.tsx:161-165 | a successful fetch stores the rows, clears loading and writes the count's `toString()` as the total, or `"0"` when it is missing |
| ListPage.FailedKeepingTotal | src/components/blocks/BlocksPageClient.tsx:166-170 | a failed fetch empties the rows, clears loading and keeps the total |
| ListPage.FailedResettingTotal | src/components/settlements/settlementsPageClient.tsx:122-127 | a failed fetch empties the rows, clears loading and sets the total to exactly `"0"` |
| Blocks.HideEmptyClause | src/components/blocks/BlocksPageClient.tsx:99-110 | `hideEmpty` gives `OR` the two-clause disjunction iff its value is `"true"`, and undefined otherwise |
| Blocks.QueryTransformer | src/components/blocks/BlocksPageClient.tsx:92-121 | the loop builds the fold of the filters into the where map |
| Blocks.TransformedFind | src/components/blocks/BlocksPageClient.tsx:97-117 | `hideEmpty` is never a where key. `OR` holds the `hideEmpty` clause when the filters have no `OR` key. Every other key with a non-empty value gets `{ equals }` with its declared coercion; empty values give nothing |
| Blocks.Request | src/components/blocks/BlocksPageClient.tsx:135-141 | `take` 10, unclamped `skip = 10*(page-1)`, and `where` omitted iff the transformed map is empty |
| Blocks.NegativePageRequested | src/components/blocks/BlocksPageClient.tsx:135 | a negative page in the URL reaches the request as a negative `skip` |
| Blocks.RowOf | src/components/blocks/BlocksPageClient.tsx:154-159 | a block without `result` throws, so the mapping fails; otherwise height, hash and state root are copied and the transaction count is written as its `toString()`, or undefined when missing |
| Blocks.Rows | src/components/blocks/BlocksPageClient.tsx:154-159 | the rows exist iff every block has a result, one row per block in order |
| Blocks.AfterFetch | src/components/blocks/BlocksPageClient.tsx:153-170 | after a fetch, loading is off. On success the rows are stored and the total is exactly `CountText` of the count (its `toString()`, or `"0"` when missing). A failure, or a block that throws, empties the rows and keeps the total |
| Blocks.RowLink | src/components/blocks/BlocksPageClient.tsx:192 | clicking a block row opens `/blocks/` + its hash |
| Transactions.Request | src/components/transactions/TransactionsPageClient.tsx:131-137 | `take` 10, unclamped `skip`, and the where map built by `buildWhere`, omitted iff empty |
| Transactions.StatusOf | src/components/transactions/TransactionsPageClient.tsx:151-157 | the status is a success iff the execution status is exactly `true`, with no message. Otherwise the message is `statusMessage`, or `"Pending"` when that is missing |
| Transactions.RowOf | src/components/transactions/TransactionsPageClient.tsx:158-164 | hash, method id, sender and nonce are copied unchanged, and the status is mapped |
| Transactions.Rows | src/components/transactions/TransactionsPageClient.tsx:150-165 | one row per transaction, in order |
| Transactions.AfterFetch | src/components/transactions/TransactionsPageClient.tsx:167-176 | on success the rows are stored and the total is exactly `CountText` of the count (its `toString()`, or `"0"` when missing); on failure the rows are emptied and the total is kept |
| Transactions.RenderStatus | src/components/transactions/TransactionsPageClient.tsx:101-118 | the success icon shows iff `isSuccess`; the failure view shows the message only when it is defined |
| Transactions.RenderedStatus | src/components/transactions/TransactionsPageClient.tsx:101-157 | for a fetched transaction, the success icon shows iff its execution status is `true`, and a failure always has a message |
| Transactions.RowLink | src/components/transactions/TransactionsPageClient.tsx:197 | clicking a row opens `/transactions/` + its hash |
| Settlements.Request | src/components/settlements/settlementsPageClient.tsx:91-99 | `take` 10, clamped non-negative `skip`, and `where` omitted iff empty |
| Settlements.RowOf | src/components/settlements/settlementsPageClient.tsx:111-115 | hashes are copied and the batches column is the count's `toString()`, or `"0"` when missing |
| Settlements.Rows | src/components/settlements/settlementsPageClient.tsx:111-115 | one row per settlement, in order |
| Settlements.AfterFetch | src/components/settlements/settlementsPageClient.tsx:117-127 | on success the rows are stored and the total is exactly `CountText` of the count (its `toString()`, or `"0"` when missing); on failure the rows are emptied and the total is the text `"0"` |
| Settlements.RowLink | src/components/settlements/settlementsPageClient.tsx:149 | clicking a row opens `/settlements/` + its transaction hash |
| Batches.Request | src/components/batches/BatchesPageClient.tsx:90-96 | `take` 10, clamped non-negative `skip`, and `where` omitted iff empty |
| Batches.HeightSentAsNumber | src/components/batches/BatchesPageClient.tsx:49-96 | a non-empty height filter reaches the where map as `Number(height)` |
| Batches.RowOf | src/components/batches/BatchesPageClient.tsx:109-113 | height and hash are copied and the blocks column is the count's `toString()`, or `"0"` when missing |
| Batches.Rows | src/components/batches/BatchesPageClient.tsx:109-113 | one row per batch, in order |
| Batches.AfterFetch | src/components/batches/BatchesPageClient.tsx:115-125 | on success the rows are stored and the total is exactly `CountText` of the count (its `toString()`, or `"0"` when missing); on failure the rows are emptied and the total is the text `"0"` |
| Batches.RowLink | src/components/batches/BatchesPageClient.tsx:147 | clicking a row opens `/batches/` + its height |
| DataTable.WordRun | src/components/ui/DataTable.tsx:126 | the `\w+` run at the start of a string: word characters up to the first non-word character |
| DataTable.SubstituteLiteral | src/components/ui/DataTable.tsx:126-130 | a path without `{` is left unchanged |
| DataTable.SubstitutePlaceholder | src/components/ui/DataTable.tsx:126-130 | a `{word}` placeholder is replaced by the item's field text, or `""` when missing, and the rest of the path is substituted in turn |
| DataTable.RowClick | src/components/ui/DataTable.tsx:123-136 | a row click navigates iff a path is configured; a path without placeholders is pushed unchanged |
| DataTable.RowClickPlaceholder | src/components/ui/DataTable.tsx:123-136 | a path `prefix{key}` navigates to the prefix followed by the item's field |
| DataTable.Serialized | src/components/ui/DataTable.tsx:104 | booleans become `"true"`/`"false"`; strings and unset values stay as they are |
| DataTable.SerializeForm | src/components/ui/DataTable.tsx:101-106 | serialising keeps the keys in order and serialises each value |
| DataTable.HandleSubmit | src/components/ui/DataTable.tsx:99-111 | submitting keeps the keys, serialises each value, and always resets the page to 1 |
| DataTable.CheckboxKept | src/components/ui/DataTable.tsx:104 | a serialised checkbox survives filter cleaning iff it is ticked |
| DataTable.ClearSubmit | src/components/ui/DataTable.tsx:113-117 | clearing submits empty filters and page 1 iff filter fields are configured |
| DataTable.DefaultValues | src/components/ui/DataTable.tsx:86-97 | form defaults are empty for absent filters; otherwise the same keys, with null or empty values blanked |
| DataTable.Blanked | src/components/ui/DataTable.tsx:91-96 | keys are kept and null or `""` values become undefined |
| DataTable.ShownData | src/components/ui/DataTable.tsx:138-172 | missing items default to `[]`, the total to `"0"` and the page to 0; loading shows only when it is `true` |
| FilterBuilder.Sanitize | src/components/ui/FilterBuilder.tsx:65 | removing non-digits leaves only ASCII digits and never lengthens the input |
| FilterBuilder.SanitizeAppend | src/components/ui/FilterBuilder.tsx:65 | the sanitiser works character by character, so the digits keep their order |
| FilterBuilder.SanitizeDigits | src/components/ui/FilterBuilder.tsx:65 | a digit-only input is left unchanged |
| FilterBuilder.SanitizeIdempotent | src/components/ui/FilterBuilder.tsx:65 | sanitising twice is sanitising once |
| FilterBuilder.SanitizeKeepsDigits | src/components/ui/FilterBuilder.tsx:65 | a character survives iff it is a digit of the input |
| FilterBuilder.Typed | src/components/ui/FilterBuilder.tsx:63-70 | a number field stores only the input's digits; other fields store the input unchanged |
| FilterBuilder.PasteUnchanged | src/components/ui/FilterBuilder.tsx:71-78 | a paste the guard lets into a number field survives the sanitiser unchanged |
| FilterBuilder.InputPlaceholder | src/components/ui/FilterBuilder.tsx:58-60 | the placeholder is the given one, or `"Filter by "` followed by the lower-cased label |
| FilterBuilder.Checked | src/components/ui/FilterBuilder.tsx:46 | `Boolean(value)`: an unset value, `false` and `""` are unchecked; `true` and any non-empty text are checked |
| FilterBuilder.CheckboxLabel | src/components/ui/FilterBuilder.tsx:50 | the checkbox label is the placeholder, or the label when there is none |
| FilterPanel.ClearValue | src/components/ui/Filters.tsx:24 | a cleared field takes its initial value, else `false` for a boolean and `""` otherwise; it is never left unset |
| FilterPanel.ResetUntouched | src/components/ui/Filters.tsx:23-26 | form values of fields not in the list are not touched |
| FilterPanel.ResetListed | src/components/ui/Filters.tsx:23-26 | every listed field holds its cleared value |
| FilterPanel.ClearedUnchecked | src/components/ui/Filters.tsx:23-26 | after "Clear filters" a field without an initial value is present and shows unchecked |
| FilterPanel.ClearTrace | src/components/ui/Filters.tsx:22-31 | one set per field in list order, then exactly one validation, then the submit iff `onSubmit` is given, as the last step |
| FilterPanel.FilterForm.constructor | src/components/ui/Filters.tsx:20 | the form starts with the given values and no events |
| FilterPanel.FilterForm.HandleClear | src/components/ui/Filters.tsx:22-31 | the loop resets the listed fields and records the set, validate and submit sequence |
| TableRow.VisibleKeys | src/components/ui/GenericTableRow.tsx:37-39 | a key is shown iff it is a column and in the view; view keys that are not columns are ignored |
| TableRow.VisibleKeysAppend | src/components/ui/GenericTableRow.tsx:37-39 | the visible keys keep the column declaration order |
| TableRow.VisibleKeysAll | src/components/ui/GenericTableRow.tsx:37-39 | when every column is in view, all columns show in order |
| TableRow.CellFor | src/components/ui/GenericTableRow.tsx:40-52 | a cell is a skeleton iff loading; otherwise a custom renderer comes first, then the copy widget for copy keys, then plain text |
| TableRow.DataCells | src/components/ui/GenericTableRow.tsx:37-54 | one cell per visible key, in order |
| TableRow.RowCells | src/components/ui/GenericTableRow.tsx:36-61 | while loading every cell is a skeleton and there is no chevron; otherwise exactly one trailing chevron follows the data cells |
| ListView.ActiveFilterCount | src/components/list.tsx:64-68 | an absent `filters` parameter counts 0 filters; otherwise the pairs the string constructor reads are counted, so `"?"` counts 0 |
| ListView.ActiveFiltersAfterSync | src/components/list.tsx:64-68 | after the hook writes the URL, the count is exactly the number of valid filters |
| ListView.FilterButtonLabel | src/components/list.tsx:100-102 | the label is `"(n) Filters"` when n > 0, else `"Filters"` |
| ListView.BodyRowCount | src/components/list.tsx:70-139 | while loading exactly five placeholder rows show; otherwise one row per item |
| ListView.HeaderLabels | src/components/list.tsx:116-129 | a non-empty view shows every column label in declaration order, whichever columns are in view; an empty view shows none |
| ListView.ShowEmptyState | src/components/list.tsx:142 | with columns in view, "No data found" shows iff the body has no rows; with none, iff loading is over |
| ListView.TotalNumber | src/components/list.tsx:162 | the total is NaN before data arrives and otherwise the number the pager is given |
| ListView.ShowAvailableEntries | src/components/list.tsx:162 | "Available entries" shows iff loading is over, data has arrived and its total reads as a positive number |
| ListView.ShowPagination | src/components/list.tsx:160 | the pager shows when the prop is left out or `true`, and hides only for `false` |
| ListView.FailedFetchShowsEmptyState | src/components/list.tsx:142-162 | after a failed fetch "No data found" shows, and a total reset to `"0"` hides "Available entries" |
| ListView.PagerTotal | src/components/list.tsx:171 | a missing total is passed to the pager as 0 |
| ListView.LoadedTotal | src/components/list.tsx:160-172 | for a total written by a list page, "Available entries" shows iff the count is positive, and a next page exists iff `page*10` is below the count |
| GlobalSearch.PlanFor | src/components/search/GlobalSearch.tsx:79-143 | an empty query clears the results and sends nothing. Otherwise the query is sent, with a height iff the query is all digits, the max height is known and the height is not above it |
| GlobalSearch.SearchByHeight | src/components/search/GlobalSearch.tsx:90-95 | a known height up to the max is searched by height |
| GlobalSearch.SearchByHashAboveMax | src/components/search/GlobalSearch.tsx:90-95 | digits above the max height, or with no max known, are searched by hash |
| GlobalSearch.BlockCaption | src/components/search/GlobalSearch.tsx:151 | a block's caption is `"Block #"` followed by the height's `toString()`, a canonical numeral that reads back as the height |
| GlobalSearch.TransactionCaption | src/components/search/GlobalSearch.tsx:159 | a transaction's caption is `"Transaction "`, then a prefix of the hash of at most 8 characters, then `"..."` |
| GlobalSearch.SettlementEntry | src/components/search/GlobalSearch.tsx:163-168 | a settlement result leads to the settlement's transaction hash |
| GlobalSearch.SettlementCaption | src/components/search/GlobalSearch.tsx:167 | a settlement's caption is `"Settlement "`, then a prefix of the transaction hash of at most 8 characters, then `"..."` |
| GlobalSearch.AssembledOrder | src/components/search/GlobalSearch.tsx:147-169 | results are all blocks, then all transactions, then all settlements, each group in response order |
| GlobalSearch.Found | src/components/search/GlobalSearch.tsx:146-171 | with no data nothing is found; missing blocks throw; otherwise the groups are assembled in order |
| GlobalSearch.AssembleResults | src/components/search/GlobalSearch.tsx:87-169 | the three push loops build exactly the assembled results |
| GlobalSearch.PushBlocks | src/components/search/GlobalSearch.tsx:147-153 | the loop appends one entry per block, in order |
| GlobalSearch.PushTransactions | src/components/search/GlobalSearch.tsx:155-161 | the loop appends one entry per transaction, in order |
| GlobalSearch.PushSettlements | src/components/search/GlobalSearch.tsx:163-169 | the loop appends one entry per settlement, in order |
| GlobalSearch.ResultsAfter | src/components/search/GlobalSearch.tsx:171-176 | a failed request or a throwing response keeps the old results; otherwise the found results replace them |
| GlobalSearch.ResultPath | src/components/search/GlobalSearch.tsx:189-199 | each result kind routes to its own path followed by the hash |
| GlobalSearch.HandleResultClick | src/components/search/GlobalSearch.tsx:189-205 | a click routes by kind, clears the query and hides the results |
| GlobalSearch.BlockResultOpensBlock | src/components/search/GlobalSearch.tsx:189-205 | clicking a block result opens that block, and the cleared query issues no search |
| GlobalSearch.ShowResultList | src/components/search/GlobalSearch.tsx:237 | the result list shows iff the search is focused and there are results; with `ShowNoResults` it is exclusive (`ResultPanelsExclusive`) and a click closes it (`ClickClosesResults`) |
| GlobalSearch.ShowNoResults | src/components/search/GlobalSearch.tsx:266 | "No results found" shows iff focused, the query is non-empty, nothing is loading and there are no results; never beside the result list (`ResultPanelsExclusive`) nor after a click (`ClickClosesResults`) |
| GlobalSearch.ResultPanelsExclusive | src/components/search/GlobalSearch.tsx:237-266 | the result list and "No results found" never show together |
| GlobalSearch.ClickClosesResults | src/components/search/GlobalSearch.tsx:189-205 | after a result is clicked neither the list nor "No results found" shows |
| Header.ActivePrefix | src/components/header.tsx:24 | an active item's href is a prefix of the path, followed by the end of the path or `/` |
| Header.ClickTarget | src/components/header.tsx:30-34 | a click navigates to the href iff the path differs from it; either way the clicked item ends up highlighted (`ClickHighlightsItem`) |
| Header.ClickHighlightsItem | src/components/header.tsx:24-34 | the path a click leaves, pushed or current, highlights the clicked item |
| Header.AtMostOneActive | src/components/header.tsx:8-24 | no path activates two nav items |
| Dashboard.CurrentStateRoot | src/components/dashboard/DashboardStats.tsx:177-180 | the state root is the first block's result root if truthy, else its `fromStateRoot` if truthy, else `"—"` |
| Dashboard.ToStats | src/components/dashboard/DashboardStats.tsx:158-182 | missing data throws. Otherwise the counts default to 0. The latest block and the latest settlement are absent iff there is no first entry, and otherwise copy its fields. The recent blocks are copied |
| Dashboard.Started | src/components/dashboard/DashboardStats.tsx:129 | a fetch sets loading and keeps the stats |
| Dashboard.Finished | src/components/dashboard/DashboardStats.tsx:158-187 | a fetch always ends with loading off; only a successful mapping replaces the stats |
| Dashboard.RecentBlocksTable | src/components/dashboard/DashboardStats.tsx:317-349 | five skeleton rows iff loading; otherwise exactly the recent blocks when there are any, and the "No blocks available" row when there are none |
| Dashboard.NoSkeletonsAfterFetch | src/components/dashboard/DashboardStats.tsx:128-188 | skeletons show during the fetch and never after it, whether it succeeds or fails |
| Dashboard.TotalBlocksShown | src/components/dashboard/DashboardStats.tsx:200 | the card shows the block count, or 0 before any stats; after a fetch it is the response's count (`TotalBlocksAfterFetch`) |
| Dashboard.TotalBlocksAfterFetch | src/components/dashboard/DashboardStats.tsx:128-200 | after a fetch with data the card shows the response's block count, 0 when missing; after a failure or no data it shows what it showed before |
| ColumnPicker.AllCheckedFind | src/components/ui/dropdown-menu-checkboxes.tsx:27-29 | initially every item value is checked and nothing else has a flag |
| ColumnPicker.CheckedKeysFind | src/components/ui/dropdown-menu-checkboxes.tsx:32-34 | a key is reported iff its flag is true |
| ColumnPicker.CheckedKeysAppend | src/components/ui/dropdown-menu-checkboxes.tsx:32-34 | reporting keeps the map's insertion order |
| ColumnPicker.InitialReport | src/components/ui/dropdown-menu-checkboxes.tsx:27-35 | for distinct item values, the first report is every item value in item order |
| ColumnPicker.CheckboxMenu.constructor | src/components/ui/dropdown-menu-checkboxes.tsx:27-29 | the menu starts with every item checked |
| ColumnPicker.CheckboxMenu.Toggle | src/components/ui/dropdown-menu-checkboxes.tsx:52-56 | a toggle sets that item's flag and leaves every other flag unchanged |
| ColumnPicker.CheckboxMenu.CheckedList | src/components/ui/dropdown-menu-checkboxes.tsx:28-34 | the reported list is exactly the keys whose flag is true, all of them item values |

## Left out

- Network I/O: the GraphQL requests, the indexer's responses and the max-height fetch at the start of global search. Responses enter the model as values, and the max height as a parameter.
- React scheduling: when effects run, re-renders, and the aliasing between the hook's `filters` state and its in-place deletion. `QueryParams.ListState` holds the state in fields, and `Sync` runs the effect once.
- The 300 ms search debounce and the 200 ms blur delay in global search. These are timers.
- `router.push` and browser history. The model returns the URL or path that would be pushed. The origin and pathname prefix of the pushed URL are not modelled.
- `Js.ToNumber`: JavaScript `Number()` is modelled only for optionally signed decimal integers and `""`, which gives 0. Every other string, including decimals, exponents, hexadecimal and surrounding whitespace, is NaN. The integers are exact and unbounded, while JavaScript numbers are IEEE doubles, so texts above 2^53 read back exactly here but are rounded there.
- `Js.IntToString`: prints the exact integer; `toString` of a double above 2^53 prints the rounded value.
- `GlobalSearch.PlanFor`: `parseInt` of a digit query gives the exact height, with no rounding above 2^53, so very long digit queries compare against the maximum height differently from the source.
- `Js.Lower`: only ASCII capitals are lowered. `toLowerCase`'s non-ASCII case mappings, including ones that change the length, are not modelled.
- `SearchParams.Unescape`: a `%XX` escape of a byte at or above 0x80 is kept as the three literal characters. The standard's UTF-8 decoding of such bytes (`%C3%A9` to `é`) is not modelled.
- `SearchParams.Escape`: only ASCII characters are percent-encoded. Non-ASCII characters pass through unencoded rather than as UTF-8 bytes.
- `Records`: objects keep plain insertion order. JavaScript's rule that integer-like keys are enumerated first in numeric order is not modelled.
- `DataTable.FieldText`: an item field is text or missing, so `null` is not told apart from a missing field. `String(value)` of numbers and other values is not modelled beyond the text the row mappings produce.
- `TableRow.CellFor`: the custom renderer's output is not modelled, only the choice of renderer.
- `typed` (src/lib/utils.ts:7-9) is an identity cast and has no counterpart.
- `cn`, the clipboard widget, runtime configuration, icons, styling, and the page and layout wrappers are not part of this model.
- Form validation by the zod schema (`form.trigger`) appears only as the `Validated` event.
