# site-storage dashboard logic in Dafny

This project models the logic of the site-storage warehouse dashboard, a React
front end over a storage API. It also proves properties of that logic.

The modelled parts:

- **Item normalizer.** `transformItem` and the list step of `getItems` turn
  loosely typed backend records into `Item`s. This covers the string defaults,
  the renames and the quantity derivation.
- **Client-side filter.** `filterItems` does a case-insensitive substring
  search over one or all searchable fields, chosen by the search scope.
  `getFilterTypeLabel` gives each scope's menu label.
- **Pagination bar.** This covers:
  - the "showing x–y of n" range;
  - the sliding window of page buttons, with first/last shortcuts and ellipses;
  - the disabled states of the four navigation buttons;
  - the reset to page 0 when the page size changes.
- **Statistics panel.** This covers:
  - the record counts and whether a filter is active;
  - the total quantity and the number of defective records;
  - the distinct warehouses and executors;
  - the defect colour and the two percentages.
- **Formatting helpers.** These are the empty guard of `formatDate`, the
  "no expiration" sentinel of `formatExpirationDate`, and `truncateText`.
- **Status line.** This is the priority ladder of `getStatusMessage` and the
  three chips beside it.

Modules, one per source file, plus three shared ones:

| file | module | models |
|---|---|---|
| `wrappers.dfy` | `Wrappers` | `Option` (an absent field) |
| `text.dfy` | `Text` | the JavaScript string built-ins used: `trim`, `toLowerCase`, `includes`, and the decimal rendering of a count |
| `seqs.dfy` | `Seqs` | order-preserving subsequences and `[...new Set(xs)]` |
| `items.dfy` | `Items` | `Item`, `FilterType`, `FilterOptions` (src/types/item.ts) |
| `api.dfy` | `Api` | src/services/api.ts |
| `filters.dfy` | `Filters` | src/utils/filters.ts |
| `pagination.dfy` | `Pagination` | src/components/EnhancedPagination.tsx |
| `table_stats.dfy` | `TableStats` | src/components/TableStats.tsx |
| `formatters.dfy` | `Formatters` | src/utils/formatters.ts |
| `status_bar.dfy` | `StatusBar` | src/components/StatusBar.tsx |

Modelling choices:

- **Raw records.** Raw record fields are `Option`s. An absent string field,
  like an empty one, becomes `""`. The two counters are already-parsed
  integers, and an absent counter reads as 0.
- **Lower-casing.** `toLowerCase` is modelled for A–Z and the Cyrillic capitals
  (U+0400–U+042F). Every other character is left unchanged.
- **Trimming.** `trim` removes the ECMAScript WhiteSpace and LineTerminator
  characters.
- **Search scopes.** `FilterType` has an extra `Other(raw)` variant for any
  run-time string outside the eight scopes. That makes the `default:` branch
  of the filter reachable. The subset type `Scope` admits `Other(raw)` only
  for such strings, and the search options carry a `Scope`.
- **`renderPageNumbers`.** It is a method. It reassigns the window start in
  place, then grows the strip push by push: the leading shortcut, the `for`
  loop over the window, and the trailing shortcut. Three small methods do
  these steps. The whole result is proved equal to the function
  `PageNumbers`, and the shape lemmas are proved about that function.
- **Percentages.** They are exact reals.
- **Counts in messages.** A count in a message is its shortest decimal
  numeral.
- **Library and clock calls.** Date formatting by the date library is the
  parameter `render`. The time shown by the status line arrives as
  already-rendered text.

In the code, `id`, `id_sklad` and `expiration_date` are copied without a default,
so a record that lacks them leaves them absent (`Api.TransformEmptyRecord`).

## Model

| member | source | states |
|---|---|---|
| Text.TrimStart | src/utils/filters.ts:4 | the leading-whitespace cut leaves a suffix, removes only whitespace and stops at a visible character |
| Text.TrimEnd | src/utils/filters.ts:4 | the trailing-whitespace cut leaves a prefix, removes only whitespace and stops at a visible character |
| Text.Trim | src/utils/filters.ts:4 | `trim` is `TrimEnd` of `TrimStart`; specified by `TrimStart`, `TrimEnd` and `BlankIffAllWhitespace` |
| Text.IsBlank | src/utils/filters.ts:4-6 | `!s.trim()`; specified by `BlankIffAllWhitespace` |
| Text.BlankIffAllWhitespace | src/utils/filters.ts:4 | `!s.trim()` holds exactly when every character of `s` is whitespace |
| Text.ToLower | src/utils/filters.ts:8 | a lowered character is never upper case, and a character changes exactly when it was upper case |
| Text.LowerString | src/utils/filters.ts:8 | lower-casing keeps the length and lowers each character in place |
| Text.LowerStringFixed | src/utils/filters.ts:8 | a string without upper-case letters is its own lower-case form |
| Text.LowerStringIdempotent | src/utils/filters.ts:8 | lower-casing twice equals lower-casing once |
| Text.ContainsIffOccurs | src/utils/filters.ts:14 | `s.includes(t)` holds exactly when `t` starts at some position of `s` |
| Text.ContainsLength | src/utils/filters.ts:14 | a contained string is never longer than its container |
| Text.ContainsSelfAndEmpty | src/utils/filters.ts:14 | every string includes itself and the empty string |
| Text.Contains | src/utils/filters.ts:14 | `includes`; specified by `ContainsIffOccurs`, `ContainsLength` and `ContainsSelfAndEmpty` |
| Text.DigitChar | src/components/StatusBar.tsx:33 | a digit value becomes the digit character with that value |
| Text.NatToString | src/components/StatusBar.tsx:33 | the rendering of a count is non-empty, all digits, and starts with 0 only for 0 |
| Text.DigitValue | src/components/StatusBar.tsx:33 | helper (a proof step, not a model of this line): a digit character denotes a value below 10 |
| Text.NatToStringRoundTrip | src/components/StatusBar.tsx:33 | reading the rendered numeral back gives the count |
| Seqs.SubsequenceReflexive | src/utils/filters.ts:10 | every list is an order-preserving selection of itself |
| Seqs.SubsequenceBounds | src/utils/filters.ts:10 | a selection is never longer than its source and holds nothing new |
| Seqs.FirstIndex | src/components/TableStats.tsx:45 | finds the first position of an element that occurs |
| Seqs.Distinct | src/components/TableStats.tsx:45 | `[...new Set(xs)]` has no duplicates, and holds exactly the elements of `xs` |
| Seqs.FirstIndexPrefix | src/components/TableStats.tsx:45 | helper (a proof step, not a model of this line): a first occurrence inside a prefix stays the first occurrence when more elements are added |
| Seqs.FirstIndexLast | src/components/TableStats.tsx:45 | helper (a proof step, not a model of this line): a new element added at the end has its first occurrence there |
| Seqs.DistinctFirstOccurrenceOrder | src/components/TableStats.tsx:45 | the distinct elements are listed in the order of their first occurrence |
| Items.FilterTypeOf | src/types/item.ts:36-44 | reading a run-time scope string gives a scope whose name is that string |
| Items.FilterTypeRoundTrip | src/types/item.ts:36-44 | every scope that can occur is the reading of its own name |
| Items.FilterTypeOfValid | src/types/item.ts:36-44 | the scope read from any run-time string is a scope that can occur, so the subset type `Scope` admits it |
| Api.DeriveQuantities | src/services/api.ts:122-133 | both counters positive: `quantity` is their floor quotient. Otherwise `quantity` is 0. The raw counters are always carried, whatever their sign |
| Api.OrEmpty | src/services/api.ts:137-152 | a missing or empty string field defaults to `''`; specified by `AbsentFieldsActAsDefaults` and `TransformEmptyRecord` |
| Api.ReadCounter | src/services/api.ts:122-123 | a missing counter defaults to 0, a present one is kept as parsed; specified by `TransformItem`'s counter clauses and `AbsentFieldsActAsDefaults` |
| Api.TransformItem | src/services/api.ts:120-154 | the counters land in `product_qnt` and `nested_quantity`, and the result satisfies the quantity invariant |
| Api.QuotientUnique | src/services/api.ts:132 | the quantity invariant determines `quantity` as the floor quotient |
| Api.LessFromProduct | src/services/api.ts:132 | helper (a proof step, not a model of this line): multiplying by a positive factor preserves strict order, read backwards |
| Api.TransformToRawRoundTrip | src/services/api.ts:136-152 | normalizing the backend record of an item gives the item back exactly when the item satisfies the quantity invariant. So defaults and renames lose nothing |
| Api.AbsentFieldsActAsDefaults | src/services/api.ts:120-154 | for any record, an absent string field acts as `""` and an absent counter as `0`; describing the normalized item again gives exactly that filled-in record. With the round trip this fixes the normalizer on every input |
| Api.TransformEmptyRecord | src/services/api.ts:120-154 | normalizing a record with no fields does not fail. Strings become empty and counters 0; `id`, `id_sklad` and `expiration_date` stay absent |
| Api.TransformAll | src/services/api.ts:46 | the map keeps the length and the order, and normalizes each element |
| Api.GetItems | src/services/api.ts:45-49 | no `items` gives `[]`; otherwise each record is normalized, in order and with the same length |
| Api.GetItemsConsistent | src/services/api.ts:45-49 | every item of a response satisfies the quantity invariant |
| Api.TransformAllAppend | src/services/api.ts:46 | normalizing a batch in pieces equals normalizing it at once |
| Filters.Select | src/utils/filters.ts:10-43 | the filter callback keeps at most as many items as it is given |
| Filters.SelectSound | src/utils/filters.ts:10-43 | the kept items are an order-preserving selection of the input, and each of them matches |
| Filters.SelectComplete | src/utils/filters.ts:10-43 | every matching item of the input is kept |
| Filters.ItemMatches | src/utils/filters.ts:11-42 | the `switch` on the scope; specified by `MatchesIffSearchedField`, `UnsearchedFieldsIgnored` and `ScopeInclusions` |
| Filters.FilterItems | src/utils/filters.ts:3-44 | the result is never longer than the input |
| Filters.FilterIsSubsequence | src/utils/filters.ts:3-44 | the result is an order-preserving subsequence of the input |
| Filters.SelectAllMatch | src/utils/filters.ts:10 | when every item matches, nothing is dropped |
| Filters.SelectDropsMismatch | src/utils/filters.ts:10 | one item that does not match makes the result strictly shorter |
| Filters.SelectAppend | src/utils/filters.ts:10 | filtering two lists laid end to end equals filtering each of them |
| Filters.FilterWhitespaceSearch | src/utils/filters.ts:4-6 | a search of only whitespace returns the list unchanged, whatever the scope |
| Filters.FilterMembership | src/utils/filters.ts:3-43 | an item is in the result exactly when it is in the input and either the search is blank or its scope matches the lower-cased search |
| Filters.FilterUnknownScope | src/utils/filters.ts:40-41 | a scope string that is none of the eight named scopes keeps every item |
| Filters.FilterIdempotent | src/utils/filters.ts:3-44 | filtering the result again with the same options changes nothing |
| Filters.MatchesIffSearchedField | src/utils/filters.ts:11-42 | a named scope keeps an item exactly when one of its listed fields contains the term. `all` lists name, article, shk, wr_shk, wr_name, executor, condition_state and prunit_name |
| Filters.UnsearchedFieldsIgnored | src/utils/filters.ts:12-22 | two items that agree on the eight searchable fields are matched alike. So `reason`, the quantities, ids and dates are never searched |
| Filters.ScopeInclusions | src/utils/filters.ts:12-33 | a hit of any named scope is an `all` hit, and a `cellName` hit is a `cell` hit |
| Filters.CellNameHitsAreCellHits | src/utils/filters.ts:27-33 | every item a `cellName` search keeps, the same `cell` search keeps too |
| Filters.FilterSingleton | src/utils/filters.ts:3-43 | with a non-blank search, a one-item list keeps its item exactly when it matches |
| Filters.SelectPair | src/utils/filters.ts:10-43 | each item of a two-item list is kept exactly when it matches |
| Filters.FilterPair | src/utils/filters.ts:3-43 | with a non-blank search, each item of a two-item list is kept exactly when it matches |
| Filters.VisibleStartNotBlank | src/utils/filters.ts:4 | a search that starts with a visible character is not blank |
| Filters.SpacedSearchFacts | src/utils/filters.ts:4-8 | " ab" is not blank, is its own lower-case form, and trims to "ab" |
| Filters.ShortFieldMisses | src/utils/filters.ts:14 | a field shorter than the term never matches |
| Filters.SpacedSearchMissesName | src/utils/filters.ts:4-8 | the term is lower-cased but not trimmed: " ab" does not find the name "ab" |
| Filters.TrimmedSearchFindsName | src/utils/filters.ts:34-35 | the search "ab" finds the name "ab" |
| Filters.NameSearchIgnoresCase | src/utils/filters.ts:34-35 | "bolt" on names keeps both "Bolt" and "BOLT-2" |
| Filters.CodeSearchKeepsMatchOnly | src/utils/filters.ts:23-24 | "100" on codes keeps only the item whose code contains it |
| Filters.GetFilterTypeLabel | src/utils/filters.ts:46-58 | every scope that can occur has a non-empty label, and the label is "Все поля" exactly for `all` and for unrecognised scope strings |
| Filters.FilterTypeLabelsDistinct | src/utils/filters.ts:47-56 | the eight named scopes have eight different labels |
| Pagination.Min | src/components/EnhancedPagination.tsx:47 | `Math.min` is the smaller of its arguments |
| Pagination.Max | src/components/EnhancedPagination.tsx:58 | `Math.max` is the larger of its arguments |
| Pagination.EndItem | src/components/EnhancedPagination.tsx:47 | the last shown position is at most the total and at most the page end, and equals one of them |
| Pagination.StartItem | src/components/EnhancedPagination.tsx:46 | the first shown position; specified by `ShowingRange` |
| Pagination.MulLeft | src/components/EnhancedPagination.tsx:46 | helper (a proof step, not a model of this line): multiplying by the page size preserves order |
| Pagination.PageCountBounds | src/components/EnhancedPagination.tsx:46-47 | with `ceil(n / pageSize)` pages, the last page reaches the last record and the one before it does not |
| Pagination.ShowingRange | src/components/EnhancedPagination.tsx:46-47 | on any page of a non-empty list the range lies within 1..n and holds at most a page. Every page but the last is full, and the next page starts right after it |
| Pagination.Window | src/components/EnhancedPagination.tsx:58-64 | the corrected button window; specified by `WindowClosedForm` and `WindowShape` |
| Pagination.MaxVisiblePages | src/components/EnhancedPagination.tsx:55 | five buttons on a wide screen, three on a narrow one; see `RenderedStripIsWide` |
| Pagination.WindowClosedForm | src/components/EnhancedPagination.tsx:58-64 | the corrected window starts at `max(0, min(current - floor(max/2), total - max))` and is as wide as the pages allow |
| Pagination.WindowShape | src/components/EnhancedPagination.tsx:58-64 | for a page in range: `0 ≤ startPage ≤ currentPage ≤ endPage ≤ totalPages - 1`, and the window has `min(maxVisiblePages, totalPages)` pages |
| Pagination.Buttons | src/components/EnhancedPagination.tsx:97-119 | the window's buttons are the pages `lo..hi` in order, and only the current page is highlighted |
| Pagination.Leading | src/components/EnhancedPagination.tsx:67-94 | the page-0 shortcut and left ellipsis; specified by `PushLeading`, `StripEnds` and `StripContiguity` |
| Pagination.Trailing | src/components/EnhancedPagination.tsx:122-149 | the right ellipsis and last-page shortcut; specified by `PushTrailing`, `StripEnds` and `StripContiguity` |
| Pagination.PageNumbers | src/components/EnhancedPagination.tsx:54-152 | the whole strip; computed by `RenderPageNumbers` and specified by `StripEnds`, `StripSelection` and `StripContiguity` |
| Pagination.RenderPageNumbers | src/components/EnhancedPagination.tsx:54-152 | the strip it builds in place is `PageNumbers`: leading shortcut, window buttons, trailing shortcut |
| Pagination.PushLeading | src/components/EnhancedPagination.tsx:67-94 | the page-0 shortcut appears iff `startPage > 0`, and the left ellipsis iff `startPage > 1` |
| Pagination.PushButtons | src/components/EnhancedPagination.tsx:97-119 | the `for` loop appends one button per page of the window, in order |
| Pagination.PushTrailing | src/components/EnhancedPagination.tsx:122-149 | the right ellipsis appears iff `endPage < totalPages - 2`, and the last-page shortcut iff `endPage < totalPages - 1` |
| Pagination.StripEnds | src/components/EnhancedPagination.tsx:58-149 | the strip starts with page 0 and ends with the last page, and shows only pages that exist |
| Pagination.StripSelection | src/components/EnhancedPagination.tsx:97-119 | exactly the current page is highlighted, and it always has a button |
| Pagination.StripContiguity | src/components/EnhancedPagination.tsx:67-149 | neighbouring buttons show consecutive pages. An ellipsis sits between two buttons and hides at least one page. So no page is skipped silently or shown twice |
| Pagination.Navigation | src/components/EnhancedPagination.tsx:195-232 | the four disabled flags; specified by `NavigationTargets` |
| Pagination.NavigationTargets | src/components/EnhancedPagination.tsx:192-236 | first/previous are disabled iff on page 0, and next/last iff on the last page. Each button is enabled exactly when its target page exists and is not the current one |
| Pagination.Render | src/components/EnhancedPagination.tsx:154-237 | nothing is rendered iff `totalPages ≤ 1`. The range info and the "Страница n" chip appear together, iff `showInfo`; the chip shows `currentPage + 1` and the range is `StartItem`..`EndItem` of `totalItems`. The navigation flags are `Navigation`, and the page strip appears iff the screen is wide |
| Pagination.RenderedStripIsWide | src/components/EnhancedPagination.tsx:55 | whenever the strip is drawn, it is the five-button strip |
| Pagination.HandlePageSizeChange | src/components/EnhancedPagination.tsx:49-52 | a page-size change raises two callbacks, the last of which goes to page 0 |
| Pagination.PageSizeChangeResets | src/components/EnhancedPagination.tsx:49-52 | after a page-size change the parent is on page 0 with the new size, whatever page it was on |
| TableStats.TotalQuantityAppend | src/components/TableStats.tsx:40 | the total of two lists laid end to end is the sum of their totals |
| TableStats.TotalQuantity | src/components/TableStats.tsx:40 | the `reduce` over `product_qnt`; specified by `TotalQuantityAppend`, `TotalQuantityNonNegative` and `TotalQuantitySubsequence` |
| TableStats.TotalQuantityNonNegative | src/components/TableStats.tsx:40 | with no negative quantity, the total is non-negative (and 0 for the empty list) |
| TableStats.TotalQuantitySubsequence | src/components/TableStats.tsx:40 | leaving records out cannot raise the total while no quantity is negative |
| TableStats.FilteredQuantityBound | src/components/TableStats.tsx:40 | while no quantity is negative, the quantity over the filtered records never exceeds the quantity over all records |
| TableStats.CountDefective | src/components/TableStats.tsx:41-43 | `0 ≤ defectiveItems ≤ visibleItems`, and the count is 0 exactly when no record is defective |
| TableStats.IsDefective | src/components/TableStats.tsx:42 | the lower-cased condition contains "некондиц"; specified by `DefectiveCountIsConditionSearch` |
| TableStats.DefectiveMarkerLower | src/components/TableStats.tsx:42 | the marker "некондиц" is its own lower-case form |
| TableStats.DefectiveMarkerNotBlank | src/components/TableStats.tsx:42 | the marker is not blank |
| TableStats.CountDefectiveIsSelect | src/components/TableStats.tsx:41-43 | counting defective records equals selecting them by condition |
| TableStats.DefectiveCountIsConditionSearch | src/components/TableStats.tsx:41-43 | the defective count equals the size of the result of a `condition` search for "некондиц" |
| TableStats.WarehouseIds | src/components/TableStats.tsx:45 | the id list has one entry per record, in order |
| TableStats.WarehousesSpec | src/components/TableStats.tsx:45 | each warehouse id of the records is listed exactly once, in first-occurrence order, and nothing else is listed |
| TableStats.Warehouses | src/components/TableStats.tsx:45 | the distinct warehouse ids; specified by `WarehousesSpec` |
| TableStats.NamedExecutors | src/components/TableStats.tsx:46 | `.filter(Boolean)` keeps exactly the non-empty executors |
| TableStats.ExecutorsSpec | src/components/TableStats.tsx:46 | executors are listed once each, never empty. A name is listed exactly when some record carries it |
| TableStats.Executors | src/components/TableStats.tsx:46 | the distinct non-empty executors; specified by `ExecutorsSpec` |
| TableStats.DefectiveColor | src/components/TableStats.tsx:72 | the defect card is 'error' iff some record is defective, and 'success' otherwise |
| TableStats.ShareBounds | src/components/TableStats.tsx:48-49 | a part of a whole is between 0 and 100 percent. It is 0 only for no part and 100 only for the whole |
| TableStats.DefectivePercentage | src/components/TableStats.tsx:48 | the defective share; specified by `DefectivePercentageBounds` |
| TableStats.FilterPercentage | src/components/TableStats.tsx:49 | the shown share; specified by `FilterPercentageBounds` and `InactiveFilterIsFull` |
| TableStats.DefectivePercentageBounds | src/components/TableStats.tsx:48 | the defective share is a percentage, and 0 exactly when no shown record is defective (so 0 when none is shown) |
| TableStats.FilterPercentageBounds | src/components/TableStats.tsx:49 | the shown share is a percentage, and 100 exactly when every record is shown (so 100 when there are none) |
| TableStats.ComputeStats | src/components/TableStats.tsx:36-58 | `totalItems` counts all records. Every other figure is taken over the filtered records: `visibleItems`, `totalQuantity`, `defectiveItems` (never more than `visibleItems`), the distinct warehouses and executors, and both percentages. `filterActive` holds iff the two lengths differ. The records bar appears iff a filter is active and shows the filter percentage. The defect colour is `DefectiveColor` of the defective count: 'error' iff there are defective records, 'success' otherwise |
| TableStats.FilterActiveIffSomeDropped | src/components/TableStats.tsx:36-38 | fed with the filter's result, the panel shows a filter as active exactly when the search is not blank and some record does not match |
| TableStats.InactiveFilterIsFull | src/components/TableStats.tsx:49 | the records share reads 100 percent exactly when no filter is active |
| Formatters.FormatDate | src/utils/formatters.ts:7-18 | `formatDate('')` is `''`. An unparsable date is shown as given, and a parsable one as the library renders it |
| Formatters.FormatDateEmptyIff | src/utils/formatters.ts:8 | with a renderer that never yields `''`, the result is empty exactly when the input is |
| Formatters.FormatExpirationDate | src/utils/formatters.ts:30-36 | an absent, empty or '2999-01-01' date shows 'СГ отсутствует'. Any other date is formatted |
| Formatters.ExpirationLabelIff | src/utils/formatters.ts:30-36 | 'СГ отсутствует' is shown exactly for the three no-date cases, given a renderer that never prints it |
| Formatters.SentinelSurvivesNormalization | src/utils/formatters.ts:31 | a record that arrives with the sentinel or without a date is shown as having no expiration date after normalization |
| Formatters.TruncateText | src/utils/formatters.ts:48-51 | a text within the limit is kept. A longer one keeps a prefix of the text, ends in "...", and has length `max(maxLength, 3)` |
| Formatters.TruncateTextDefault | src/utils/formatters.ts:48 | with the default limit, the result has at most 50 characters, and a short text is kept |
| Formatters.TruncateTextIdempotent | src/utils/formatters.ts:48-50 | for a limit of at least 3 the result fits the limit, and truncating again changes nothing |
| Formatters.TruncateTextTinyLimit | src/utils/formatters.ts:50 | below a limit of 3 a long text becomes "...", which is longer than the limit |
| StatusBar.GetStatusMessage | src/components/StatusBar.tsx:23-45 | the message is the text of the first rung that holds: error, then loading, then a narrowing search, then the last refresh, else "Готово" |
| StatusBar.StatusOf | src/components/StatusBar.tsx:23-45 | the rung that answers; specified by `GetStatusMessage`, `ErrorWins` and `MessageRevealsStatus` |
| StatusBar.ErrorWins | src/components/StatusBar.tsx:24-26 | a non-empty error decides the message whatever the other inputs are |
| StatusBar.DifferAt | src/components/StatusBar.tsx:23-45 | helper (a proof step, not a model of this line): two fixed texts that differ at a position cannot both start a message |
| StatusBar.OtherMessagesAreNoErrors | src/components/StatusBar.tsx:23-45 | no message of a lower rung starts like an error message |
| StatusBar.LoadedMessagesAreNoOthers | src/components/StatusBar.tsx:36-42 | a "Загружено" message is neither the loading text nor a "Найдено" message |
| StatusBar.FoundMessagesAreNotLoading | src/components/StatusBar.tsx:32-34 | a "Найдено" message is not the loading text |
| StatusBar.ReadyIsNoOther | src/components/StatusBar.tsx:44 | "Готово" is not mistaken for another rung |
| StatusBar.MessageRevealsStatus | src/components/StatusBar.tsx:23-45 | the rung can be read back from the message alone, whatever the error or search text |
| StatusBar.LeadingDigits | src/components/StatusBar.tsx:33 | helper (a proof step, not a model of this line): takes the maximal run of digits at the front of the text |
| StatusBar.LeadingDigitsOfNumeral | src/components/StatusBar.tsx:33 | helper (a proof step, not a model of this line): a numeral followed by a non-digit is read back whole |
| StatusBar.FoundMessageShowsCount | src/components/StatusBar.tsx:32-34 | the "Найдено" message shows the number of filtered records |
| StatusBar.LoadedMessageShowsCount | src/components/StatusBar.tsx:36-42 | the "Загружено" message shows the number of all records |
| StatusBar.ChipsAgreeWithMessage | src/components/StatusBar.tsx:64-89 | the error chip is shown iff the message is the error. Unless outranked, the loading chip matches the loading message and the filter chip the "Найдено" message |
| StatusBar.ChipsOf | src/components/StatusBar.tsx:64-89 | the error, loading and filter chips; specified by `ChipsAgreeWithMessage` and `FilterChipsAgree` |
| StatusBar.PageStatus | src/pages/StoragePage.tsx:137-144 | the status line fed with all records, the filtered count and the search box; specified by `FilterChipsAgree` |
| StatusBar.FilterChipsAgree | src/components/StatusBar.tsx:82-89 | as the page wires it, the status filter chip and the panel's "filter active" chip appear together. Neither appears for a blank search |

## Left out

- HTTP is not modelled: the axios client, its interceptors, `addItem`, `moveItem`, `writeOffItem` and the async wrapper of `getItems`. They are I/O.
- react-query fetching, caching and refetching are not modelled. They are library-managed and concurrent.
- React/MUI rendering, styling, breakpoints and the other components are not modelled. The rendered views keep only the values a component computes. Which screen is narrow is an input (`isMobile`).
- `parseInt` corner cases are not modelled. A non-numeric counter gives NaN in the source; the raw counters are modelled as already-parsed integers.
- Any non-string value in a string field, and a non-object record, are not modelled. String fields are `Option<string>` and every record is a `RawItem`. In the source, a falsy non-string (`0`, `false`) becomes `''`. A truthy one, such as a numeric `shk`, is kept, and `filterItems` then throws a TypeError on `toLowerCase`. A `null` entry in `data.items` makes `transformItem` throw, and `getItems` rethrows the error. So the filter and the normalizer, total in the model, can fail in the source.
- The date library is a parameter. `formatDateTime` and the `HH:mm:ss` time of the status line are not modelled: the status line receives the time as text.
- `Pagination.ShowingRange` assumes the caller passes `ceil(totalItems / pageSize)` pages. The component receives `totalPages` from its caller and does not check it.
- Text.ToLower: lowers only A–Z and the Cyrillic capitals U+0400–U+042F, because the dashboard's data and markers are basic Russian and Latin. JavaScript also lowers other capitals, which the model leaves unchanged: Latin-1 and Latin Extended ones such as À–Þ and Ł, and Cyrillic ones above U+042F such as Ѣ (U+0462), Ґ (U+0490) and Ә (U+04D8).
- String lengths count Unicode scalar values, not UTF-16 code units. This matters to `truncateText` only for characters outside the Basic Multilingual Plane.
- Filters.GetFilterTypeLabel: does not model keys inherited from `Object.prototype` (such as `constructor`), because they are not scopes. For those the source's lookup yields a function rather than a label.
- TableStats.DefectivePercentageBounds: the percentages are exact reals. IEEE rounding and `toFixed(1)` are left out.
- `null` and a missing field are one value (`None`) in the model. `new Set` in the statistics panel keeps `null` and `undefined` apart, so when one record has `id_sklad: null` and another lacks it, the source lists two empty warehouse entries and `TableStats.Warehouses` lists one.
- `toLocaleString` digit grouping in the statistics panel is not modelled.
- JavaScript numbers lose precision above 2^53. The model's counters, quantities and `totalQuantity` are unbounded integers, so it does not capture that loss.
- Pagination.Render: `showInfo` and `pageSizeOptions` have defaults in the component (`true` and `[10, 20, 50, 100, 200]`). `Render` takes `showInfo` as a plain input, and the page-size menu options are not modelled.
- Pagination.Render: the range text itself (`Показано x-y из n записей`, or `x-y из n` on a narrow screen) is not built; the view carries its numbers.
- The loading placeholder of the statistics panel is rendering only and is not modelled.
