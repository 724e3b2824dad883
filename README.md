# Promotion grid: ordering, pagination and the incremental-load session

This project models the logic inside `script.js` of the promotion page. That page shows a grid of promotion cards and
loads more of them as the user scrolls. The model covers:

- the promotion record and its sort comparator: `orderSeq` ascending, then `createDate` descending;
- the stable in-place sort of the record list;
- the 1-based pages of 12 (`getPromotionsPage`), with `Array.prototype.slice` semantics;
- the list container as a sequence of `Placeholder | Card(record)`, and what `renderPromotions` does to it in replace
  and append mode;
- the card's date line (`replaceAll('-', '.')` followed by `" ~"`);
- the deterministic part of `generateMockData`;
- the session state `allApiPromotions`, `currentPage`, `isLoading`, `isEndOfData`. It changes on the initial load and
  on `loadMorePromotions`, which is split into its synchronous guard and its timer callback.

Layout, one module per component:

- `records.dfy` (`Records`): `Date`, `Promotion` and `Comparator`.
- `sorting.dfy` (`Sorting`): `StableSort` is the specification, a left-to-right insertion sort on sequences. Its
  lemmas prove it is a permutation, sorted, stable (every class of records that tie on both keys keeps its input
  order) and the only list with those properties, so any stable sort with this comparator gives the same result.
  `SortInPlace` is the insertion sort on an array, proved equal to `StableSort`.
- `paging.dfy` (`Paging`): `Slice` with JavaScript index rules, `Page`, and the partition lemmas.
- `rendering.dfy` (`Rendering`): the container items and `Rendered`, the container after one render call.
- `datetext.dfy` (`DateText`): the card date line.
- `mockdata.dfy` (`MockSource`): `MockData` and the loop `GenerateMockData`.
- `session.dfy` (`Session`): the session as a value, with one function per transition. It has the invariant
  `Consistent`, event traces (`Scroll`, `Timer`) and the lemmas about them.
- `controller.dfy` (`PageController`): the class `Controller`. Its fields are the closure variables, updated in place.
  `LoadInitialData`, `LoadMorePromotions` and `CompleteLoadMore` are proved to move the fields exactly as the
  matching `Session` transition does. `RenderPromotions` is proved to leave the container as `Rendering.Rendered`
  describes it. `ShowFirstPage` states its field update outright.

The model's invariant: the container shows exactly pages 1 to `currentPage - 1` of the sorted list, or is the single
placeholder of an empty list. Also, `isLoading` and `isEndOfData` never hold together.

One consequence is visible in the model. Suppose that in live mode a scroll's timer fires before the initial request
has answered. That load reads page 1 of the still-empty list and sets `isEndOfData`. The list that arrives later then
never gets past page 1 (`Session.EarlyLoadEndsSession`). In mock mode the initial load finishes before any scroll
event, so this cannot happen there.

## Model

| member | source | states |
|---|---|---|
| `Records.DateSign` | script.js:67 | Negative exactly when a is the earlier date, positive exactly when b is, and zero exactly when the dates are equal. |
| `Records.Comparator` | script.js:63-68 | Negative exactly when a has the smaller orderSeq, or the same orderSeq and the later createDate. Zero exactly when both keys are equal. |
| `Records.ComparatorTransitive` | script.js:63-68 | "Not after" under the comparator is transitive, and strictness carries through, so the comparator is a consistent total preorder. |
| `Sorting.Insert` | script.js:63-68 | One step of the stable sort: the result is one record longer than the list it inserts into. What it does to order, multiset and ties is stated by InsertSorted, InsertPermutes and InsertTies. |
| `Sorting.InsertPermutes` | script.js:63-68 | Insertion adds exactly x to the multiset of records and drops nothing. |
| `Sorting.StableSort` | script.js:63-68 | The result of sorting with the comparator: same length and the same multiset of records as the input (a permutation). |
| `Sorting.StableSortSorted` | script.js:63-68 | No record of the sorted list is placed after one that the comparator puts strictly after it. |
| `Sorting.SortedKeys` | script.js:63-68 | In a sorted list, orderSeq is non-decreasing and, among equal orderSeq, createDate is non-increasing. |
| `Sorting.StableSortStable` | script.js:63-68 | For every record k, the records tying with k appear in the sorted list in their input order. |
| `Sorting.StableSortUnique` | script.js:63-68 | Any sorted list that is a stable rearrangement of the input equals StableSort of it. |
| `Sorting.InsertSorted` | script.js:63-68 | Inserting into a sorted list keeps it sorted. |
| `Sorting.InsertAt` | script.js:63 | Moves a[i] into the sorted prefix so that the prefix becomes Insert(a[i], old prefix). The rest of the array is unchanged. |
| `Sorting.SortInPlace` | script.js:63 | The array afterwards holds StableSort of its old contents. |
| `Sorting.SortList` | script.js:63 | Sorting the array that holds the fetched list yields StableSort(list). |
| `Paging.Slice` | script.js:108 | The result has max(0, hi - lo) elements, and element k is s[lo + k], with lo and hi resolved as slice resolves them. |
| `Paging.SliceIndex` | script.js:108 | Resolves one slice argument: within [0, n] it is kept, a negative one counts back from n, and anything outside is clamped to 0 or n. |
| `Paging.Page` | script.js:105-109 | getPromotionsPage: never more than 12 records, for any page number. For page p >= 1 it is exactly s[min((p-1)*12, n) .. min(p*12, n)]. |
| `Paging.PageWindow` | script.js:105-109 | A page p >= 1 is empty exactly when (p-1)*12 >= n, and its element k is s[(p-1)*12 + k]. |
| `Paging.PagesPrefix` | script.js:105-109 | Pages 1 to m, concatenated, are exactly the first min(m*12, n) records. |
| `Paging.PagesPartition` | script.js:105-109 | Pages 1 to ceil(n/12) are non-empty, the next page is empty, and together they are the whole list with no gap or duplicate. |
| `Paging.HundredRecords` | script.js:105-109 | For 100 records, page 9 is records 96 to 99 (4 of them) and page 10 is empty. |
| `Rendering.Cards` | script.js:126-141 | One card per record, in the same order, and no placeholder among them. |
| `Rendering.CardsConcat` | script.js:126-141 | The cards of a joined list are the cards of its parts, one after the other. |
| `Rendering.Rendered` | script.js:112-142 | Append mode keeps every existing child, in place, at the front. In replace mode the placeholder is present exactly when there are no records. |
| `Rendering.RenderEmptyReplace` | script.js:115-123 | Replace mode with no records leaves exactly one placeholder and no card. |
| `Rendering.RenderEmptyAppend` | script.js:119-124 | Append mode with no records leaves the container unchanged. |
| `Rendering.RenderRecords` | script.js:115-141 | With records, the cards shown are the old container's cards (append) or none (replace), followed by the records in input order. The placeholders are the old ones (append) or none (replace). |
| `Rendering.CardsShow` | script.js:126-141 | The cards built for a record list show exactly that list and no placeholder. |
| `PageController.Controller.RenderPromotions` | script.js:112-142 | The container becomes Rendered(old container, records, append). |
| `DateText.ReplaceDashes` | script.js:135 | Same length as the input; each '-' becomes '.' and every other character stays. |
| `DateText.CardDate` | script.js:135 | The date line is the date's own length plus two, and ends in " ~". |
| `DateText.CardDateShape` | script.js:135 | The date line contains no '-', shows '.' where the date has a '-', and keeps every other character in place. |
| `DateText.CardDateExample` | script.js:135 | "2025-03-20" is shown as "2025.03.20 ~". |
| `MockSource.Decimal` | script.js:26 | The text is a non-empty string of decimal digits that spells n (DigitsValue of it is n), and it starts with '0' only for n = 0. |
| `MockSource.DecimalUnique` | script.js:26 | Any digit string without a superfluous leading '0' that spells n is Decimal(n), so the text is the canonical one `${i}` prints. |
| `MockSource.MockRecord` | script.js:22-30 | Record i has a title from the pool, link "#", and the supplied date. Its orderSeq m >= 1 is the block of ten i falls into: (m-1)*10 <= i < m*10. |
| `MockSource.MockData` | script.js:18-33 | The generated list has count records (none when count <= 0). |
| `MockSource.GenerateMockData` | script.js:18-33 | The loop returns MockData(count, dates). |
| `MockSource.MockDataShape` | script.js:21-31 | Exactly count records (none when count <= 0). Record k has orderSeq (k+1)/10 + 1, title SAMPLE_TITLES[(k+1) % 9], image URL ending in seed=k+1, link "#", and date dates[k]. |
| `MockSource.MockOrderSeqNondecreasing` | script.js:29 | orderSeq never decreases along the generated list. |
| `Session.LoadInitial` | script.js:63-77 | The initial load never touches isLoading or isEndOfData. The error is shown exactly when the request failed, and then nothing else changes. On success the held list is StableSort(list) and currentPage is 2. |
| `Session.StartLoad` | script.js:86-88 | The guard step changes only isLoading. Afterwards isLoading holds exactly when a load was already pending or the data had not ended. |
| `Session.CompleteLoad` | script.js:91-102 | The callback clears isLoading and keeps the list and the error flag. It sets isEndOfData exactly when the data had ended or the current page is empty, and advances currentPage by one exactly when that page is non-empty. So isEndOfData, once set, stays set. |
| `Session.Step` | script.js:85-102 | A timer with no load pending changes nothing. Once the data has ended and no load is pending, no event changes anything. No event clears isEndOfData or changes the held list. |
| `Session.InitialConsistent` | script.js:6-10 | The starting state (page 1, not loading, not ended, empty list) satisfies the session invariant. |
| `Session.LoadInitialConsistent` | script.js:63-77 | The initial load, successful or not, keeps the session invariant. |
| `Session.InitialLoadEffect` | script.js:63-77 | Success keeps StableSort(list), shows page 1, sets currentPage to 2, hides the error, and shows the placeholder exactly when the list is empty. Failure only shows the error. |
| `Session.StartLoadConsistent` | script.js:85-88 | The guard step keeps the session invariant. |
| `Session.RepeatedScrolls` | script.js:86-88 | While loading or ended, any number of triggers changes nothing. Otherwise the first trigger only raises isLoading (currentPage unchanged) and later triggers change nothing. |
| `Session.CompleteLoadEffect` | script.js:91-102 | The callback leaves isLoading false. A non-empty page has its cards appended and currentPage is incremented. An empty page sets isEndOfData and leaves currentPage and the container unchanged. |
| `Session.CompleteLoadConsistent` | script.js:91-102 | The timer callback keeps the session invariant. |
| `Session.AppendPageConsistent` | script.js:92-95 | Appending the non-empty current page keeps the container equal to the pages before currentPage. |
| `Session.EndOfDataIsFinal` | script.js:86-102 | Once isEndOfData holds, no sequence of scroll and timer events changes the state. |
| `Session.EndShowsEverything` | script.js:92-98 | A load that finds the current page empty leaves every record of the sorted list shown, in order, once. |
| `Session.ShownIsPages` | script.js:105-109 | The records shown are pages 1 to currentPage - 1 concatenated. |
| `Session.RunConsistent` | script.js:85-103 | Any sequence of scroll and timer events keeps the session invariant. |
| `Session.ScrollToEnd` | script.js:85-109 | From any consistent idle state, enough scroll-then-timer cycles latch isEndOfData and show exactly the whole list. |
| `Session.WholeSession` | script.js:63-109 | After the initial load of a list, scrolling to the end shows exactly StableSort(list). |
| `Session.EarlyLoadEndsSession` | script.js:85-102 | If a load completes before the initial data arrives, it latches isEndOfData with page 1. Afterwards no event shows more than page 1 of the list that arrives. |
| `PageController.Controller.constructor` | script.js:6-10 | The fields start as the initial session state, which is consistent. |
| `PageController.Controller.LoadInitialData` | script.js:36-82 | The fields move as Session.LoadInitial prescribes, and the invariant is kept. |
| `PageController.Controller.ShowFirstPage` | script.js:63-72 | Keeps the sorted list, renders page 1 in replace mode, and sets currentPage to 2. |
| `PageController.Controller.LoadInitialMockData` | script.js:47-49 | The mock initial load is LoadInitial of MockData(100, dates). |
| `PageController.Controller.LoadMorePromotions` | script.js:85-89 | The fields move as Session.StartLoad prescribes. The callback is scheduled exactly when the guard lets the call through. |
| `PageController.Controller.CompleteLoadMore` | script.js:91-102 | The fields move as Session.CompleteLoad prescribes, and the invariant is kept. |

## Left out

- The network request (`fetch` POST, `response.ok`, `json()`, `data.data.list || []`) and the `isMobile` width check.
  The outcome of the request is the parameter `FetchResult`. It is either `Fetched(list)` or `FetchFailed`, which
  covers a bad HTTP status and malformed JSON alike.
- `setTimeout` and its 500 ms delay. The timer only splits `loadMorePromotions` into `LoadMorePromotions` and
  `CompleteLoadMore`. In traces, the timer is the `Timer` event. It fires only while a load is pending, which is
  exactly while `isLoading` holds.
- The scroll listener and its pixel geometry. The `Scroll` event stands for the bottom-of-page condition having held.
- Visibility toggles of the loaders and containers, `console` output, the card HTML, escaping, and the image `onerror`
  fallback. These carry no data. The error region is only the flag `errorShown`, and its fixed message text is left out.
- Random dates, `new Date`, `toISOString` and the time zone. `GenerateMockData` takes the creation dates as a
  parameter. In the source these are local dates from 2025-03-19 to 2025-03-28, printed in UTC, so east of UTC they
  come out one day earlier.
- `Records.Comparator`: the source subtracts two parsed `Date` values (milliseconds). The model uses the sign of the
  chronological comparison of (year, month, day), which is all the sort uses. Dates that do not parse (NaN) are not
  modelled.
- `DateText.CardDate` works on the ISO date string that `createDate` holds in the source. The record itself keeps the
  date as an ordered (year, month, day) value, so the model does not connect the two.
- The container's initial HTML content is taken to be empty.
- JavaScript numbers are doubles. The model uses unbounded integers, which agree with the source for every page number
  and record count the page can reach.
- `useMockData` and the `DOMContentLoaded` wiring. Both initial-load paths are modelled: `LoadInitialMockData` and
  `LoadInitialData`. The model does not require the initial load to happen exactly once or before any scroll.
