# Servis-Takip: a verified model of the repair-shop record store and its pages

Servis-Takip is a single-page web application for a phone repair shop. It
keeps repair tickets (service records) and spare-part stock. All of its data
is one aggregate that lives in the browser's local storage:

- an ordered list of service records;
- an ordered list of stock items;
- a `lastUpdated` stamp;
- a separate login flag.

This project models that store and the logic of the pages that use it, and
proves what they promise.

- `types.dfy` (module `Types`) is the data model:
  - the five ticket statuses with their stored strings, labels and colour classes;
  - status-history entries, service records and stock items;
  - record and stock drafts and partial updates ("patches");
  - the aggregate and the accessory checklist.
- `store.dfy` (module `Store`) is the store. Class `RecordStore` holds:
  - the two collections, the stamp and the login flag;
  - a fresh-id counter that stands in for the id generator.
  
  Each operation changes one entity in place. Each is proved against a pure
  function:
  - `NewRecord`, `MergeRecord`, `WithStatus`, `WithNote`;
  - `NewItem`, `MergeItem`, `LowStock`, `ImportResult`.
  
  Records are prepended and stock items appended. A missing id writes nothing.
  An import either replaces the whole aggregate or leaves it as it was.
  Login is a two-state machine keyed to one password. A status change only
  appends to a record's status history, and the entry it appends carries the
  new status; adding a note appends to the notes and leaves the history
  alone. The generic field update gives no such guarantee: it can replace the
  history outright or set a status without adding an entry, and a lemma
  shows the second.
- `stock_page.dfy` (module `StockPage`) models the stock page:
  - the quantity clamp and the form defaults;
  - the local list that the add, edit, delete and quantity handlers keep
    equal to the store's list;
  - the name search and the low-stock list.
- `new_record.dfy` (module `NewRecord`) models the new-record page:
  - the default form;
  - the required-field guard;
  - the price default and the accessory toggle.
- `record_detail.dfy` (module `RecordDetail`) models the record-detail page:
  - the WhatsApp phone normalisation;
  - the short id and receipt number;
  - the newest-first timeline;
  - the status-change, add-note and delete handlers.
- `aggregates.dfy` (module `Aggregates`) holds the specification functions
  for per-key grouping over records: keys, distinct keys, matching records,
  price sums, latest creation time, status counts and tallies.
- `customers.dfy` (module `Customers`) models the customers page. The
  grouping loop builds one customer per phone; it is then sorted by last
  visit, and there is a name/phone search.
- `reports.dfy` (module `Reports`) models the reports page statistics:
  - totals and the status partition;
  - the brand dictionary loop and the status-count reduction;
  - the top five brands, distinct customers, the low-stock count and the
    average ticket.
- `dashboard.dfy` (module `Dashboard`) models the dashboard:
  - its counters and this month's revenue;
  - the search and status filter, cut after ten rows.
- `text.dfy` and `collections.dfy` hold the string and sequence operations
  the JavaScript code gets from its standard library:
  - `includes`, `trim`, `toUpperCase` and the non-digit strip;
  - `findIndex`, `splice`, `reverse`, `slice` and a stable descending sort.

Several things are parameters of the model:

- The clock is an integer `now` passed to every operation that stamps
  something.
- The current day and month are intervals of such integers.
- Locale-sensitive lower-casing is a function passed in.
- What `parseInt`/`parseFloat` make of a text field is an optional integer
  stored next to the text.

## Model

| member | source | states |
|---|---|---|
| Types.ParseStatus | Servis-Takip/client/src/lib/types.ts:1 | a string read back as a status is exactly the stored string of that status |
| Types.StatusesEnumerated | Servis-Takip/client/src/lib/types.ts:1 | there are exactly five statuses and they are pairwise different |
| Types.StatusCodeRoundTrip | Servis-Takip/client/src/lib/types.ts:1 | every status is one of the five, and its stored string reads back as the same status |
| Types.StatusLabel | Servis-Takip/client/src/lib/types.ts:43-49 | the label table is total: every status has a non-empty Turkish label |
| Types.StatusLabelsDistinct | Servis-Takip/client/src/lib/types.ts:43-49 | two different statuses never share a label |
| Types.StatusColor | Servis-Takip/client/src/lib/types.ts:51-57 | the colour table is total: every status has non-empty badge classes |
| Types.AccessoryOptionsDistinct | Servis-Takip/client/src/lib/types.ts:59-68 | the accessory checklist offers eight pairwise different names |
| Text.IncludesTrivial | Servis-Takip/client/src/pages/customers.tsx:51-54 | every string contains the empty query and contains itself |
| Text.DigitsOf | Servis-Takip/client/src/pages/record-detail.tsx:86 | the result holds only digits, keeps every digit of the input and drops everything else; a digit string is left unchanged |
| Text.DigitsOfAppend | Servis-Takip/client/src/pages/record-detail.tsx:86 | stripping a concatenation is stripping each part and concatenating: the digits keep their order and multiplicity |
| Text.Trim | Servis-Takip/client/src/pages/record-detail.tsx:74-75 | the result is the input without leading and trailing JavaScript whitespace; it is empty exactly when the input is all whitespace, and otherwise starts and ends with a non-space |
| Text.UpperChar | Servis-Takip/client/src/pages/record-detail.tsx:113 | the upper-cased character is never a lower-case ASCII letter |
| Text.UpperCharFixes | Servis-Takip/client/src/pages/record-detail.tsx:113 | upper-casing leaves a character unchanged exactly when it is not a lower-case ASCII letter |
| Text.OrDefault | Servis-Takip/client/src/pages/stock.tsx:41-42 | `parse(text) \|\| d`: a parsed non-zero value is kept; a value that is not a number, or is 0, becomes `d` |
| Collections.FirstIndex | Servis-Takip/client/src/lib/store.ts:190 | `findIndex`: None exactly when the id is absent, otherwise the index of its first occurrence |
| Collections.RemoveAt | Servis-Takip/client/src/lib/store.ts:237 | `splice(index, 1)`: one element shorter, elements before the index unchanged, elements after it shifted down by one, exactly that one element removed |
| Collections.Reversed | Servis-Takip/client/src/pages/record-detail.tsx:411 | same length, the k-th element is the k-th from the end |
| Collections.Take | Servis-Takip/client/src/pages/dashboard.tsx:59 | `slice(0, n)`: the first min(n, length) elements, a prefix of the input |
| Collections.TakeSubMultiset | Servis-Takip/client/src/pages/reports.tsx:46 | a prefix holds no element more often than the whole list |
| Collections.SortDesc | Servis-Takip/client/src/pages/customers.tsx:46-48 | the sort by a descending comparator returns a permutation of its input in non-increasing rank order |
| Collections.SumBySortDesc | Servis-Takip/client/src/pages/customers.tsx:46-48 | sorting never changes a sum over the list |
| Store.IdOf | Servis-Takip/client/src/lib/store.ts:7-9 | the model's stand-in for the id generator: a counter value rendered in decimal, a non-empty string of digits (the program's ids are base-36 time and random digits) |
| Store.ParseIdOf | Servis-Takip/client/src/lib/store.ts:7-9 | reading a generated id back gives the counter value it was made from |
| Store.IdOfInjective | Servis-Takip/client/src/lib/store.ts:7-9 | different counter values give different ids |
| Store.NewRecord | Servis-Takip/client/src/lib/store.ts:176-182 | the new record carries the draft's fields and the given id, and has exactly one history entry, with the draft's status, stamped `now`; createdAt == updatedAt == now; its history is consistent |
| Store.MergeRecord | Servis-Takip/client/src/lib/store.ts:194 | every supplied field overrides the record's, every other field is kept, and updatedAt is `now` even when the patch supplies one |
| Store.MergeRecordIdempotent | Servis-Takip/client/src/lib/store.ts:194 | applying the same update twice at the same time gives the same record as applying it once |
| Store.MergeEmptyPatch | Servis-Takip/client/src/lib/store.ts:194 | an empty update only refreshes updatedAt |
| Store.MergeKeepsConsistency | Servis-Takip/client/src/lib/store.ts:194 | an update that supplies neither status nor history keeps "last history status == current status" |
| Store.MergeStatusBreaksConsistency | Servis-Takip/client/src/lib/store.ts:188-198 | a status supplied through the generic update appends nothing to the history, so "last history status == current status" no longer holds |
| Store.WithStatus | Servis-Takip/client/src/lib/store.ts:205-215 | the status becomes the new one; exactly one entry carrying that status and the note is appended and the earlier entries are unchanged; updatedAt is `now`; all other fields are kept; the history is consistent afterwards |
| Store.WithNote | Servis-Takip/client/src/lib/store.ts:226-227 | the note is appended as the last note, earlier notes are unchanged, updatedAt is `now`, and the status and history are unchanged |
| Store.StatusScenario | Servis-Takip/client/src/lib/store.ts:200-219 | a ticket created as beklemede, then moved to islemde with a note and then to teslim-edildi, has a three-entry history in that order |
| Store.NewItem | Servis-Takip/client/src/lib/store.ts:250-255 | the new item carries the draft's fields and the given id, with createdAt == updatedAt == now |
| Store.MergeItem | Servis-Takip/client/src/lib/store.ts:266 | supplied fields override the item's and the others are kept; updatedAt is `now`; no check that the quantity is non-negative |
| Store.LowStock | Servis-Takip/client/src/lib/store.ts:283 | exactly the items with quantity <= criticalLevel |
| Store.LowStockAppend | Servis-Takip/client/src/lib/store.ts:283 | the low-stock filter keeps collection order: the low items of a concatenation are the low items of each part, in turn |
| Store.LowStockAfterRestock | Servis-Takip/client/src/lib/store.ts:283 | restocking an item above its critical level removes exactly that item from the low-stock list |
| Store.ImportResult | Servis-Takip/client/src/lib/store.ts:159-171 | an import is accepted exactly when the text parsed and carries both collections; an accepted import replaces the whole aggregate, stamped `now`; a rejected one changes nothing |
| Store.ExportImportRoundTrip | Servis-Takip/client/src/lib/store.ts:154-171 | importing an exported aggregate succeeds and gives back the same collections |
| Store.ImportMissingStockFails | Servis-Takip/client/src/lib/store.ts:162-163 | an import without the stock collection is refused and changes nothing |
| Store.RecordStore.constructor | Servis-Takip/client/src/lib/store.ts:144-146 | the first load stores the seed aggregate, stamped; the user is logged out |
| Store.RecordStore.LoadData | Servis-Takip/client/src/lib/store.ts:135-147 | loading returns the stored aggregate |
| Store.RecordStore.SaveData | Servis-Takip/client/src/lib/store.ts:149-152 | saving stores the given aggregate with lastUpdated restamped |
| Store.RecordStore.ExportData | Servis-Takip/client/src/lib/store.ts:154-157 | the export is the stored aggregate, and importing it back is accepted and gives the same aggregate |
| Store.RecordStore.ImportData | Servis-Takip/client/src/lib/store.ts:159-171 | the result and the new aggregate are those of ImportResult; on failure nothing changes; the login flag is untouched |
| Store.RecordStore.NextId | Servis-Takip/client/src/lib/store.ts:7-9 | returns the id of the current counter value and moves the counter on |
| Store.RecordStore.AddServiceRecord | Servis-Takip/client/src/lib/store.ts:173-186 | the new record (one history entry with the draft's status, createdAt == updatedAt == now) is put at index 0 and every earlier record moves down one place unchanged; stock is untouched; history consistency and, while ids are fresh, id uniqueness are preserved |
| Store.RecordStore.UpdateServiceRecord | Servis-Takip/client/src/lib/store.ts:188-198 | an unknown id returns None and writes nothing; otherwise the merged record replaces the first record with that id at the same index, and nothing else changes |
| Store.RecordStore.UpdateServiceStatus | Servis-Takip/client/src/lib/store.ts:200-219 | an unknown id returns None and writes nothing; otherwise only the first record with that id changes, by WithStatus; every record's history stays consistent |
| Store.RecordStore.AddNoteToRecord | Servis-Takip/client/src/lib/store.ts:221-230 | an unknown id returns None and writes nothing; otherwise only that record changes, by WithNote |
| Store.RecordStore.DeleteServiceRecord | Servis-Takip/client/src/lib/store.ts:232-240 | returns whether the id was present; if it was, exactly the first record with it is removed and the rest keep their order; if not, nothing changes |
| Store.RecordStore.GetServiceRecord | Servis-Takip/client/src/lib/store.ts:242-245 | None exactly when no record has the id; otherwise the first record with it |
| Store.RecordStore.AddStockItem | Servis-Takip/client/src/lib/store.ts:247-259 | the new item (createdAt == updatedAt == now) is appended at the end; records are untouched; while ids are fresh, item ids stay unique |
| Store.RecordStore.UpdateStockItem | Servis-Takip/client/src/lib/store.ts:261-269 | an unknown id returns None and writes nothing; otherwise the merged item replaces the first item with that id at the same index |
| Store.RecordStore.DeleteStockItem | Servis-Takip/client/src/lib/store.ts:271-279 | returns whether the id was present; if it was, exactly the first item with it is removed, order kept; if not, nothing changes |
| Store.RecordStore.GetLowStockItems | Servis-Takip/client/src/lib/store.ts:281-284 | exactly the stored items with quantity <= criticalLevel, in collection order |
| Store.RecordStore.CheckAuth | Servis-Takip/client/src/lib/store.ts:286-288 | reports the login flag |
| Store.RecordStore.Login | Servis-Takip/client/src/lib/store.ts:290-296 | succeeds exactly for the demo password; success logs in, failure leaves the flag as it was |
| Store.RecordStore.Logout | Servis-Takip/client/src/lib/store.ts:298-300 | afterwards the user is logged out |
| StockPage.FormDraft | Servis-Takip/client/src/pages/stock.tsx:39-43 | the name is kept; an unparsable quantity becomes 0; a blank, unparsable or zero critical level becomes 5 |
| StockPage.ClampQuantity | Servis-Takip/client/src/pages/stock.tsx:79 | the new quantity is never negative and is the plain sum whenever that is not negative |
| StockPage.ClampQuantityCases | Servis-Takip/client/src/pages/stock.tsx:79 | pressing minus on an empty item leaves it at 0; a non-negative sum is kept as is |
| StockPage.FindById | Servis-Takip/client/src/pages/stock.tsx:76 | `items.find`: None exactly when no item has the id, otherwise the first item with it |
| StockPage.ReplaceById | Servis-Takip/client/src/pages/stock.tsx:61 | every item with the updated id is replaced by the update; the others keep their values and places |
| StockPage.ReplaceByIdUnique | Servis-Takip/client/src/pages/stock.tsx:83 | with unique ids, the page's map-replace changes exactly the item the store changed |
| StockPage.RemoveById | Servis-Takip/client/src/pages/stock.tsx:71 | keeps exactly the items whose id differs |
| StockPage.RemoveByIdAppend | Servis-Takip/client/src/pages/stock.tsx:71 | the filter keeps order: filtering a concatenation filters each part, in turn |
| StockPage.RemoveByIdAbsent | Servis-Takip/client/src/pages/stock.tsx:71 | removing an absent id leaves the list as it was |
| StockPage.RemoveByIdUnique | Servis-Takip/client/src/pages/stock.tsx:69-71 | with unique ids, the page's filter and the store's splice of the first match give the same list |
| StockPage.RemoveAtKeepsUnique | Servis-Takip/client/src/lib/store.ts:276 | removing one item keeps ids unique |
| StockPage.SearchItems | Servis-Takip/client/src/pages/stock.tsx:27-29 | exactly the items whose lower-cased name contains the lower-cased query |
| StockPage.SearchItemsAppend | Servis-Takip/client/src/pages/stock.tsx:27-29 | searching a concatenation is searching each part and concatenating: the kept items stay in list order, each once |
| StockPage.PageLowStock | Servis-Takip/client/src/pages/stock.tsx:31 | the page's low-stock list is the store's low-stock list: quantity <= criticalLevel |
| StockPage.StockPage.constructor | Servis-Takip/client/src/pages/stock.tsx:16-25 | the page opens on the stored stock list with an empty form and no open edit dialog |
| StockPage.StockPage.HandleAdd | Servis-Takip/client/src/pages/stock.tsx:33-49 | an empty name or empty quantity text changes nothing; otherwise the new item is appended to the store and to the local list and the form is cleared; the records and the login flag are kept, the stamp becomes `now` and one id is drawn; the local list stays equal to the store's |
| StockPage.StockPage.HandleEdit | Servis-Takip/client/src/pages/stock.tsx:51-67 | without an open item or with an empty name nothing happens; otherwise the store merges the form into the item and the page replaces that id with the result, while records, login flag and id counter are kept and the stamp becomes `now` (an id the store lacks changes neither store nor list); the dialog closes; the local list stays equal to the store's |
| StockPage.StockPage.HandleDelete | Servis-Takip/client/src/pages/stock.tsx:69-73 | the store removes the first item with the id, keeps records, login flag and id counter and sets the stamp to `now` (an unknown id leaves the store untouched), and the page drops every item with it; the local list stays equal to the store's |
| StockPage.StockPage.HandleQuantityChange | Servis-Takip/client/src/pages/stock.tsx:75-85 | an id not in the local list is a no-op; otherwise the store sets the clamped, non-negative quantity, keeps records, login flag and id counter and sets the stamp to `now` (an id the store lacks changes nothing), and the local list takes the stored result |
| NewRecord.DefaultForm | Servis-Takip/client/src/pages/new-record.tsx:20-32 | the form opens with every text field empty (IMEI and fault description included), no parsed price, no accessories, no notes, status beklemede and today's date |
| NewRecord.GuardIgnoresOptionalFields | Servis-Takip/client/src/pages/new-record.tsx:37 | the guard needs exactly name, phone, brand and model; description, IMEI, price and delivery date play no part |
| NewRecord.DefaultFormRefused | Servis-Takip/client/src/pages/new-record.tsx:37-40 | the untouched form cannot be submitted |
| NewRecord.SubmitDraft | Servis-Takip/client/src/pages/new-record.tsx:42-45 | the form's fields go to the store as they are, except that a price that is not a number (or is 0) is submitted as 0 |
| NewRecord.DefaultDraft | Servis-Takip/client/src/pages/new-record.tsx:28-31 | a record made from the defaults with only the required fields filled starts as beklemede, with no accessories, no notes and price 0 |
| NewRecord.Without | Servis-Takip/client/src/pages/new-record.tsx:55 | keeps exactly the accessories different from the given one |
| NewRecord.WithoutAppend | Servis-Takip/client/src/pages/new-record.tsx:55 | the filter keeps order: filtering a concatenation filters each part, in turn |
| NewRecord.WithoutAbsent | Servis-Takip/client/src/pages/new-record.tsx:55 | filtering out an absent accessory leaves the list as it was |
| NewRecord.ToggleAccessory | Servis-Takip/client/src/pages/new-record.tsx:54-56 | flips the accessory's membership and no other; an absent one is appended at the end, a present one is filtered out with the others in order |
| NewRecord.ToggleTwice | Servis-Takip/client/src/pages/new-record.tsx:54-56 | ticking an absent accessory and unticking it again restores the original list |
| NewRecord.ToggleTwicePresent | Servis-Takip/client/src/pages/new-record.tsx:54-56 | unticking and re-ticking a present accessory moves it to the end |
| NewRecord.NewRecordPage.constructor | Servis-Takip/client/src/pages/new-record.tsx:20-32 | the page opens on the default form |
| NewRecord.NewRecordPage.HandleToggleAccessory | Servis-Takip/client/src/pages/new-record.tsx:51-58 | only the accessory list changes, by ToggleAccessory |
| NewRecord.NewRecordPage.HandleSubmit | Servis-Takip/client/src/pages/new-record.tsx:34-49 | with a required field empty nothing is created and the store is untouched; otherwise the store creates the record from the submitted draft and puts it first, keeps the stock and login flag, sets the stamp to `now` and draws two ids (record and first history entry) |
| RecordDetail.NormalizePhone | Servis-Takip/client/src/pages/record-detail.tsx:86-87 | the result is all digits; when the phone's digits start with 0 it is "90" followed by the digits after that 0, one character longer; otherwise it is the digits unchanged |
| RecordDetail.NormalizePhoneIdempotent | Servis-Takip/client/src/pages/record-detail.tsx:86-87 | a normalised phone never starts with 0, and normalising it again changes nothing |
| RecordDetail.NormalizePhoneExample | Servis-Takip/client/src/pages/record-detail.tsx:86-87 | "0 5" becomes "905" |
| RecordDetail.Last | Servis-Takip/client/src/pages/record-detail.tsx:113 | `slice(-n)`: the last min(n, length) characters, a suffix of the input |
| RecordDetail.ShortId | Servis-Takip/client/src/pages/record-detail.tsx:113 | the header id is the id's last six characters (fewer for a shorter id), each upper-cased |
| RecordDetail.ReceiptNumber | Servis-Takip/client/src/pages/record-detail.tsx:165 | the receipt number is the id's last eight characters, each upper-cased |
| RecordDetail.ShortIdEndsReceipt | Servis-Takip/client/src/pages/record-detail.tsx:113 | the header id is the tail of the receipt number |
| RecordDetail.ShortIdChangesOnlyLowerCase | Servis-Takip/client/src/pages/record-detail.tsx:113 | for any id, a header character equals the id's tail character exactly when that character is not a lower-case ASCII letter |
| RecordDetail.ShortIdExample | Servis-Takip/client/src/pages/record-detail.tsx:113 | a base-36 id such as `lz3k9x2a` shows as `3K9X2A` |
| RecordDetail.Timeline | Servis-Takip/client/src/pages/record-detail.tsx:411 | the timeline lists the status history newest first: the k-th row is the k-th entry from the end |
| RecordDetail.TimelineTop | Servis-Takip/client/src/pages/record-detail.tsx:411 | for a consistent record the timeline opens with the current status |
| RecordDetail.TimelineAfterStatus | Servis-Takip/client/src/pages/record-detail.tsx:411 | after a status change the new entry is on top and the rest is the previous timeline |
| RecordDetail.StatusNoteArg | Servis-Takip/client/src/pages/record-detail.tsx:63 | `statusNote \|\| undefined`: no note exactly when the text is empty, otherwise the text itself |
| RecordDetail.RecordDetailPage.constructor | Servis-Takip/client/src/pages/record-detail.tsx:29 | the page shows the first stored record with that id, or none when no record has it |
| RecordDetail.RecordDetailPage.HandleStatusChange | Servis-Takip/client/src/pages/record-detail.tsx:61-71 | without a chosen status nothing happens; otherwise the store applies WithStatus with the empty-note rule, the page shows the stored result when the store found the record, the stock and login flag are kept, the stamp becomes `now` and one id is drawn for the history entry (a record the store lacks leaves the store untouched), and the dialog is closed and cleared |
| RecordDetail.RecordDetailPage.HandleAddNote | Servis-Takip/client/src/pages/record-detail.tsx:73-81 | a blank note does nothing; otherwise the trimmed text is appended by the store and, when the store found the record, shown and the input cleared, with stock, login flag and id counter kept and the stamp set to `now` (a record the store lacks changes nothing) |
| RecordDetail.RecordDetailPage.HandleDelete | Servis-Takip/client/src/pages/record-detail.tsx:91-95 | the store removes the first record with the shown id, keeps the stock, login flag and id counter and sets the stamp to `now`; an id the store lacks leaves the store untouched |
| Aggregates.Distinct | Servis-Takip/client/src/pages/reports.tsx:38 | the distinct values, each once, in order of first occurrence: exactly the values of the input |
| Aggregates.DistinctCardinality | Servis-Takip/client/src/pages/reports.tsx:38 | the size of the set of values equals the number of distinct values |
| Aggregates.Matching | Servis-Takip/client/src/pages/customers.tsx:26-28 | exactly the records whose key is the given one |
| Aggregates.MatchingNonEmpty | Servis-Takip/client/src/pages/customers.tsx:26-28 | some record has a key exactly when the records with that key are not none |
| Aggregates.SumPricesAppend | Servis-Takip/client/src/pages/reports.tsx:31 | the revenue of one more record grows by its price |
| Aggregates.MaxCreatedBounds | Servis-Takip/client/src/pages/customers.tsx:32-34 | the latest creation time is no earlier than any record's and is some record's |
| Aggregates.CountIn | Servis-Takip/client/src/pages/reports.tsx:33-36 | a status-filter count is at most the number of records |
| Aggregates.CountInUnion | Servis-Takip/client/src/pages/reports.tsx:33-36 | counts over disjoint status sets add up to the count over their union |
| Aggregates.CountInAll | Servis-Takip/client/src/pages/reports.tsx:61-64 | every record has one of the five statuses |
| Aggregates.CountInPositive | Servis-Takip/client/src/pages/reports.tsx:61-64 | a count is positive exactly when some record has a status in the set |
| Aggregates.Tally | Servis-Takip/client/src/pages/reports.tsx:40-43 | one entry per distinct key |
| Aggregates.TallyStepNew | Servis-Takip/client/src/pages/reports.tsx:42 | a record with a new key appends that key with count 1 |
| Aggregates.TallyStepKnown | Servis-Takip/client/src/pages/reports.tsx:42 | a record with a known key adds one to that key's count, in place |
| Aggregates.TallySum | Servis-Takip/client/src/pages/reports.tsx:40-43 | the counts of a tally add up to the number of records |
| Customers.Summary | Servis-Takip/client/src/pages/customers.tsx:26-44 | the summary of a phone carries that phone |
| Customers.SummaryMeaning | Servis-Takip/client/src/pages/customers.tsx:26-44 | a phone's customer has the name of the phone's first record, one count per record with that phone, the sum of those records' prices as totalSpent, and their latest creation time as lastVisit |
| Customers.GroupedPhones | Servis-Takip/client/src/pages/customers.tsx:27-28 | there is exactly one customer per distinct phone, in order of first appearance |
| Customers.SummaryFresh | Servis-Takip/client/src/pages/customers.tsx:36-42 | the first record of a phone starts its customer with count 1, its price and its creation time |
| Customers.SummaryTotalsBump | Servis-Takip/client/src/pages/customers.tsx:29-34 | a further record of a known phone adds one to its count and its price to its total, and moves lastVisit to the later of the two times |
| Customers.SummaryNameStable | Servis-Takip/client/src/pages/customers.tsx:37 | a later record never changes a known phone's name |
| Customers.GroupedStep | Servis-Takip/client/src/pages/customers.tsx:26-44 | one turn of the grouping loop takes the customers of a prefix to the customers of the next prefix |
| Customers.GroupedStepKnown | Servis-Takip/client/src/pages/customers.tsx:28-34 | a record with a known phone updates that phone's customer in place |
| Customers.GroupCustomers | Servis-Takip/client/src/pages/customers.tsx:23-49 | the loop followed by the sort yields a permutation of the grouped customers sorted by lastVisit, latest first |
| Customers.GroupedSums | Servis-Takip/client/src/pages/customers.tsx:30-31 | the record counts add up to the number of records, and the totals to the revenue |
| Customers.StepSums | Servis-Takip/client/src/pages/customers.tsx:30-31 | each loop turn adds one record and that record's price to the sums |
| Customers.CustomersSpec | Servis-Takip/client/src/pages/customers.tsx:23-49 | the sorted list holds each phone's summary exactly once, and nothing else; its counts add up to the number of records and its totals to the revenue |
| Customers.FirstNameWins | Servis-Takip/client/src/pages/customers.tsx:37 | two records with one phone give one customer named after the first record |
| Customers.FilterCustomers | Servis-Takip/client/src/pages/customers.tsx:51-54 | a customer is kept exactly when its lower-cased name contains the lower-cased query or its phone contains the query |
| Customers.FilterCustomersAppend | Servis-Takip/client/src/pages/customers.tsx:51-54 | filtering a concatenation is filtering each part and concatenating: kept customers stay in order, each once |
| Customers.FilterEmptyQuery | Servis-Takip/client/src/pages/customers.tsx:51-54 | an empty query keeps every customer, in order |
| Reports.StatusCountsTotal | Servis-Takip/client/src/pages/reports.tsx:61-64 | the five per-status counts add up to the number of records |
| Reports.CompletedPendingReady | Servis-Takip/client/src/pages/reports.tsx:33-36 | completed + pending + ready equals the total, because pending leaves out hazir |
| Reports.StatusCounts | Servis-Takip/client/src/pages/reports.tsx:61-64 | the reduction has a key exactly for the statuses that occur, each mapped to its number of records |
| Reports.BrandMapStep | Servis-Takip/client/src/pages/reports.tsx:42 | one loop turn adds one to the brand's entry, creating it at 1 |
| Reports.BrandMapMeaning | Servis-Takip/client/src/pages/reports.tsx:40-43 | the dictionary has a key exactly for each brand that occurs, mapped to the number of records with that brand |
| Reports.EntriesOf | Servis-Takip/client/src/pages/reports.tsx:44 | reading the dictionary in a key order gives one entry per key, with its value |
| Reports.BrandMapTally | Servis-Takip/client/src/pages/reports.tsx:40-44 | the dictionary's entries, read in key-insertion order, are the brand tally |
| Reports.FillBrandCounts | Servis-Takip/client/src/pages/reports.tsx:40-43 | the loop builds the brand dictionary and its key order |
| Reports.BrandCounts | Servis-Takip/client/src/pages/reports.tsx:40-44 | the brand entries are the tally: one per distinct brand, in first-appearance order, with its record count |
| Reports.TopBrands | Servis-Takip/client/src/pages/reports.tsx:44-46 | at most five entries, min(5, brands) of them, taken from the tally, with non-increasing counts |
| Reports.TopBrandsLargest | Servis-Takip/client/src/pages/reports.tsx:44-46 | a brand left out of the top five has a count no larger than any brand shown |
| Reports.Average | Servis-Takip/client/src/pages/reports.tsx:59 | 0 when there are no records; otherwise the average times the count is the revenue |
| Reports.CreatedWithin | Servis-Takip/client/src/pages/reports.tsx:21-27 | exactly the records created within the interval, in order |
| Reports.CreatedWithinAppend | Servis-Takip/client/src/pages/reports.tsx:21-27 | selecting from a concatenation is selecting from each part and concatenating: kept records stay in order, each once |
| Reports.CreatedWithinNested | Servis-Takip/client/src/pages/reports.tsx:17-27 | a day inside the month never counts more records than the month |
| Reports.ComputeReport | Servis-Takip/client/src/pages/reports.tsx:16-66 | every statistic the page shows equals its specification: day and month counts and revenues, totals, completed and pending (which with hazir make up the total), distinct phones (at most the total), the top five brands, the average ticket, the low-stock count and the status counts |
| Reports.ReportAgreesWithCustomers | Servis-Takip/client/src/pages/reports.tsx:38 | the reports page's distinct-customer count is the customers page's list length, and its total revenue is the sum of the customers' totals |
| Dashboard.DashboardStats | Servis-Takip/client/src/pages/dashboard.tsx:33-46 | ongoing + completed + waiting-for-part is at most the number of records; the monthly revenue is the revenue of this month's records |
| Dashboard.StatsPartition | Servis-Takip/client/src/pages/dashboard.tsx:34-36 | the three counters and the ready records make up all records: the status sets are disjoint |
| Dashboard.WaitingIsNotOngoing | Servis-Takip/client/src/pages/dashboard.tsx:34-36 | a record waiting for a part adds to the waiting counter and not to the ongoing one |
| Dashboard.BrandNotSearched | Servis-Takip/client/src/pages/dashboard.tsx:50-54 | changing a record's brand never changes whether it matches the search |
| Dashboard.FilterAll | Servis-Takip/client/src/pages/dashboard.tsx:49-58 | exactly the records matching both the search (name or model lower-cased, phone or IMEI as typed) and the status filter |
| Dashboard.FilterAllAppend | Servis-Takip/client/src/pages/dashboard.tsx:49-58 | the filter keeps collection order |
| Dashboard.FilterRecords | Servis-Takip/client/src/pages/dashboard.tsx:48-60 | at most ten rows, a prefix of all matches (all of them when fewer than ten); every row matches the search and the status filter, and a chosen status is every row's status |
| Dashboard.FilterAllKeepsAll | Servis-Takip/client/src/pages/dashboard.tsx:50-56 | no query and every status keep every record, in order |
| Dashboard.UnfilteredShowsFirstTen | Servis-Takip/client/src/pages/dashboard.tsx:48-60 | no query and every status show the first min(10, n) records |

## Left out

- Persistence is abstracted. `localStorage`, `JSON.stringify` and `JSON.parse` are not modelled; the stored aggregate is the fields of `RecordStore`. A parsed import is an `Option` of a blob whose two collections may be missing.
  - Pretty-printing is not modelled.
  - A present but non-array collection is not modelled.
  - JSON round-trip losses are not modelled.
  - Each store operation's load-modify-save becomes one in-place update of those fields.
- Store.RecordStore.AddServiceRecord, Store.RecordStore.AddStockItem: the id generator (`Date.now` and `Math.random`, each rendered in base 36) is a counter rendered in decimal, so the model's ids are digit strings while the program's contain lower-case letters; the header and receipt properties are stated for every id. Uniqueness of generated ids is an assumption of the model (`CounterFresh`), not a property of the code, so id uniqueness is stated only under that assumption.
- The wall clock and ISO timestamp strings are integer ticks `now` supplied by the caller.
  - Reports and dashboard: the start and end of the current day and month are computed by date-fns and `Date`; the model takes them as given intervals.
  - The dashboard's same-month-and-year test is modelled as membership in this month's interval.
- The demo seed data (`getInitialData`) is not part of this model. The constructor takes the seed aggregate as a parameter.
- Reports.Average: the average ticket is an exact rational rather than a floating-point quotient. Percentage bars and `toLocaleString` formatting are not modelled.
- Prices are integers. Fractional `estimatedPrice` values that `parseFloat` can produce are not modelled.
- `parseInt` and `parseFloat` are not modelled: their outcome is an optional integer stored next to the typed text.
- Locale-sensitive `toLowerCase` is an abstract function parameter.
- RecordDetail.ShortId, RecordDetail.ReceiptNumber: `toUpperCase` is modelled for ASCII letters only, so non-ASCII upper-casing is not captured.
- Reports.BrandCounts: `Object.entries` lists integer-like keys first, in numeric order. The model reads keys in insertion order, so the order among equal counts differs for brands named like numbers.
- Reports.BrandCounts, Reports.FillBrandCounts, Reports.BrandMapTally, Reports.TopBrands, Reports.ComputeReport: the page tallies brands in a plain object, so a brand named after an `Object.prototype` member is mishandled by the program and counted normally by the model. For names such as `toString`, `constructor` or `valueOf`, the count starts from the inherited function, becomes a string, and makes the sort comparator return NaN. A brand named `__proto__` is never recorded.
- The sorts are stable, as `Array.prototype.sort` is since ES2019. Among equal counts or equal visit times the model keeps first-appearance order.
- A partial update in the source can carry a key whose value is `undefined`, which would overwrite a field with `undefined`. The model's patches either supply a value or leave the field out.
- The record-detail handlers are modelled only for a found record: the not-found view has no buttons.
- Not modelled:
  - browser side effects: `window.print`, `window.open`, the WhatsApp message text and `encodeURIComponent`, toasts, navigation, dialog open state other than what the handlers reset, and the print-parameter effect;
  - the dashboard's export and import buttons (file I/O around `exportData`/`importData`, which are modelled);
  - the nav-active predicate of the layout.
- Routing (`App.tsx`), the login form (`login.tsx`) and the layout (`dashboard-layout.tsx`) are not part of this model. The password check they use is `Store.RecordStore.Login`.
- Concurrency is not modelled: two tabs doing load-modify-save can lose each other's updates, which a sequential model does not capture.
