# toolbox core, modelled in Dafny

This project models four small Python programs from the toolbox
repository and proves properties of each:

- **`SinglyLinked`** (`linked_list.dfy`): the `SinglyLinkedList` class. It is
  a chain of heap nodes from `head`, with iteration, `len`, indexing,
  `append`, the digit-reversing `concatenate_numbers_reversed` and `+`, and
  `swap_by_value`, which relinks the `next` pointers of the first nodes
  holding two values. It also has `last_nth` and `get_middle`. The list keeps
  a ghost view (`nodes`, `Contents`, `Repr`). Every method is proved against
  that view. Python's `str` and `int` on decimal text are written out, with
  no limit on the number of digits. So the error cases of `int` that do not
  depend on the length of the text (an empty list, a negative item before
  the last one) are proved exactly.
- **`UserQueue`** (`user_queue.dfy`): the FIFO `Queue` with `front` and `rear`
  pointers. It covers enqueue, dequeue and peek, including the `"The queue
  is empty"` sentinel, which is a value of `Answer` here. It also covers
  `len`, indexing, iteration and `sort_by_value`, the in-place bubble sort
  that exchanges node data. The sort is proved to end (each exchange removes
  one inversion). Its result is proved to be a permutation of the input, in
  adjacent order and stable. With Python's `>` on ints and on strings, it is
  fully sorted. The stale `rear` that `dequeue` leaves behind is part of the
  model.
- **`CachingProxy`** (`caching_proxy.dfy`): the `do_GET` handler of the caching
  proxy. A hit is served from the in-memory cache with status 200. On a miss
  the origin is fetched: the result is stored, the cache file is rewritten
  and the response has status 301. A failed fetch gets an error page with
  status 500. The model also covers the startup load of the cache file and
  `clear_cache`. The origin server is a parameter (a function from URL to
  fetch outcome). The cache file is an `Option` of the map: `None` when no
  file exists.
- **`PricingValidation`** (`pricing_validation.dfy`): the comparison rules of
  the pricing validation script. Database reads are replaced by the rows,
  counts and name lists they return. The model covers:
  - the price maps and the two mismatch maps, with their examples;
  - the document counts and how they are classified;
  - the per-range discount comparison and the list differences it prints;
  - the product and date-range loops of `check_promotion_internal_price`;
  - the `db_list` filter and the purge-name filter.

  Python dicts are association lists with distinct keys, kept in insertion
  order, because the example is taken from the first key.

Three shared modules support them:

- `Wrappers`: `Option`, `Result` and Python's exception kinds.
- `Sequences`: exchanging two positions of a sequence.
- `StringOrder`: Python's lexicographic order on strings, proved to be a
  strict total order.

## Model

| member | source | states |
|---|---|---|
| SinglyLinked.SinglyLinkedList.constructor | singly-linked-list.py:11-13 | a new list is valid and empty |
| SinglyLinked.SinglyLinkedList.Iterate | singly-linked-list.py:16-21 | walking the chain from `head` yields exactly the list's items in order |
| SinglyLinked.SinglyLinkedList.Len | singly-linked-list.py:24-31 | the count of reachable nodes is the number of items |
| SinglyLinked.SinglyLinkedList.GetItem | singly-linked-list.py:34-43 | IndexError for a position below 0 or at least the length; otherwise the item at that position |
| SinglyLinked.SinglyLinkedList.Add | singly-linked-list.py:46-51 | TypeError when the right operand is not a list; otherwise the reversed concatenation's error, if either side has one (left first), or else the sum of both reversed concatenations |
| SinglyLinked.SinglyLinkedList.Append | singly-linked-list.py:54-63 | the items become the old items followed by `data`; the old nodes keep their order and data, and one fresh node is added at the end |
| SinglyLinked.SinglyLinkedList.ConcatenateNumbersReversed | singly-linked-list.py:75-82 | the result is `int` of the joined reversed `str` forms; with no digit limit, it is ValueError exactly when the list is empty or an item before the last is negative; for natural items it is the number the reversed digit strings write |
| SinglyLinked.SinglyLinkedList.SwapByValue | singly-linked-list.py:85-111 | the first node holding `val1` and the first node holding `val2` change places in the chain (nodes and items), the list stays acyclic and null-terminated, and no node's data changes |
| SinglyLinked.SinglyLinkedList.FindFirst | singly-linked-list.py:87-101 | the search loop stops at the first node holding the value, with the node before it, or null at the head |
| SinglyLinked.SinglyLinkedList.Relink | singly-linked-list.py:103-111 | the four pointer updates, with the tuple assignment evaluated right side first, turn the chain into the chain with positions `i` and `j` exchanged, for every `i` and `j`, adjacent or equal |
| SinglyLinked.SinglyLinkedList.LastNth | singly-linked-list.py:114-117 | for `1 <= n <= len`, the n-th item from the end; otherwise IndexError from the bound check |
| SinglyLinked.SinglyLinkedList.GetMiddle | singly-linked-list.py:120-123 | IndexError on an empty list; otherwise the item at index `(len-1)//2`, the lower middle, i.e. an index `m` with `m <= len-1-m <= m+1` |
| SinglyLinked.FirstIndex | singly-linked-list.py:92-101 | the index holds the value, and no earlier index does |
| SinglyLinked.SwapSameValue | singly-linked-list.py:85-111 | swapping a value with itself leaves the items unchanged |
| SinglyLinked.SwapKeepsDistinct | singly-linked-list.py:103-111 | exchanging two positions keeps the nodes of the chain distinct, so the list stays acyclic |
| SinglyLinked.SwapRelinks | singly-linked-list.py:103-111 | the pointers after the updates link the exchanged chain and end in null |
| SinglyLinked.JoinReversedStrs | singly-linked-list.py:78-82 | joining the reversed list of `str` forms gives the items' texts from last to first |
| SinglyLinked.ReversedConcatenationErrors | singly-linked-list.py:82 | with no digit limit, `int` fails exactly on an empty list or a negative item other than the last (both directions) |
| SinglyLinked.ReversedConcatenationOfNaturals | singly-linked-list.py:75-82 | for a nonempty list of natural numbers, the result equals an arithmetic reference that uses no text |
| SinglyLinked.DigitsDenote | singly-linked-list.py:80-82 | `int` reads back the `str` of a natural number, which has as many characters as the number has digits |
| SinglyLinked.DigitsValueAppend | singly-linked-list.py:82 | the value of concatenated digit strings shifts the first by the length of the second |
| UserQueue.Queue.constructor | user-queue.py:16-18 | a new queue is valid and empty, with `front` and `rear` null |
| UserQueue.Queue.Enqueue | user-queue.py:20-27 | the items become the old items followed by `data`, also after a drain has left `rear` stale |
| UserQueue.Queue.Dequeue | user-queue.py:29-34 | an empty queue gives the sentinel and is unchanged; otherwise the queue gives the front item and drops it; `rear` is never touched |
| UserQueue.Queue.Peek | user-queue.py:36-39 | the sentinel on an empty queue; otherwise the front item |
| UserQueue.Queue.SortByValue | user-queue.py:41-55 | the sentinel on an empty queue; otherwise the same nodes, whose data become a permutation of the old items, adjacent-sorted by the key and stable |
| UserQueue.Queue.BubblePass | user-queue.py:46-55 | a pass without an exchange leaves the items unchanged and adjacent-sorted; a pass with one has strictly fewer inversions |
| UserQueue.Queue.SwapStep | user-queue.py:49-52 | exchanging an out-of-order adjacent pair removes exactly one inversion and keeps a stable permutation of the original |
| UserQueue.Queue.SwapData | user-queue.py:51 | the data of two adjacent nodes change places, and nothing else changes |
| UserQueue.Queue.Len | user-queue.py:57-63 | the count of reachable nodes is the number of items |
| UserQueue.Queue.GetItem | user-queue.py:65-72 | IndexError outside `[0, len)`; otherwise the item at that index |
| UserQueue.Queue.Iterate | user-queue.py:74-78 | the items from front to rear |
| UserQueue.InversionsSwap | user-queue.py:45-55 | an exchange of an adjacent out-of-order pair lowers the inversion count by one, so the outer loop ends |
| UserQueue.SwapKeepsStable | user-queue.py:49-52 | the exchange keeps the permutation and keeps items whose keys are not ordered in their original order |
| UserQueue.AdjacentSortedIsSorted | user-queue.py:41-55 | once no adjacent pair is out of order, no pair is, when "not greater" is transitive |
| UserQueue.Identity | user-queue.py:41-55 | the starting rearrangement maps every position to itself |
| UserQueue.PythonOrdersFit | user-queue.py:50 | Python's `>` on ints and on strings is asymmetric and its negation transitive |
| UserQueue.FifoOrder | user-queue.py:20-34 | items enqueued in order come out of dequeue in that order, and the sentinel follows them |
| UserQueue.FromItems | user-queue.py:101-107 | enqueuing a list item by item gives a queue holding that list |
| UserQueue.DrainAll | user-queue.py:29-34 | dequeuing until the sentinel yields the old contents in order and empties the queue |
| UserQueue.DrainThenEnqueue | user-queue.py:22-34 | after a drain `rear` is still set while `front` is null; the next enqueue starts a new chain of one item that peek sees |
| UserQueue.SortUsersByAge | user-queue.py:130 | the users become a stable permutation sorted by age |
| UserQueue.SortUsersByName | user-queue.py:138 | the users become a stable permutation sorted by name in Python's string order |
| CachingProxy.Proxy.Start | caching_proxy.py:13-18 | the cache is empty when there is no cache file and is the file's map when there is one; the file then mirrors the cache |
| CachingProxy.UpstreamUrl | caching_proxy.py:46-47 | the upstream URL is the origin followed by the request path |
| CachingProxy.FailureMessage | caching_proxy.py:68-71 | a URLError page reads `Error fetching `, the URL, `: ` and the reason; any other error reads `Unexpexted error: ` and its text; the two kinds start differently |
| CachingProxy.Proxy.DoGet | caching_proxy.py:46-71 | if the URL is cached, status 200 `HIT` with the cached body and no fetch or write. Otherwise one fetch. With a body: status 301 `MISS`, the body is stored and the file is written with the whole cache. If the fetch fails: status 500 with the URLError or generic message, and nothing stored. Old entries are never lost, and a file that mirrored the cache still does |
| CachingProxy.Proxy.ClearCache | caching_proxy.py:74-80 | the file is gone afterwards whether it existed or not, the notice is `Cache removed` and the exit code is 0; the memory cache is untouched |
| CachingProxy.RepeatedRequest | caching_proxy.py:50-71 | two requests for the same URL, where the origin may answer each fetch differently. If the first fetch gives a body: a miss, then a hit with the same body and no second fetch. If it fails: an error page, the URL is still not cached, and the second request fetches again and gets whatever that second fetch gives (a miss with its body, or its own error page) |
| CachingProxy.ExampleRequests | caching_proxy.py:46-64 | for origin `http://example.test` and path `/a/b?x=1`, a miss with one fetch, then a hit |
| CachingProxy.RestartKeepsEntries | caching_proxy.py:13-18 | the file written after a miss makes the first request for that URL in a new process a hit, without a fetch |
| CachingProxy.ClearTwice | caching_proxy.py:77-80 | clearing an absent file is not an error: both clears exit with 0 and print the notice |
| PricingValidation.Lookup | pricing_validation.py:27 | `d.get(k)` finds a value exactly when `k` is a key, and the value is that entry's |
| PricingValidation.LookupEntry | pricing_validation.py:27 | with distinct keys, every entry is what its key looks up |
| PricingValidation.Put | pricing_validation.py:22-25 | a new key is appended; an existing key keeps its place and the size |
| PricingValidation.PutLookup | pricing_validation.py:22-25 | after `d[k] = v`, `k` gives `v` and other keys give what they gave before |
| PricingValidation.PutDistinct | pricing_validation.py:22-25 | assignment keeps the keys distinct |
| PricingValidation.PriceMap | pricing_validation.py:22-25 | the comprehension's dict has distinct keys |
| PricingValidation.PriceMapContents | pricing_validation.py:22-25 | the dict holds exactly the keys of rows with a truthy `nsv_norm`, with the value of the last such row |
| PricingValidation.Mismatch | pricing_validation.py:27 | the mismatch map is no larger than the own map, and its keys are own keys |
| PricingValidation.MismatchContents | pricing_validation.py:27 | a key is in the mismatch map exactly when the own map has it with a value the other does not give back, and then it maps to both values |
| PricingValidation.MismatchBothWays | pricing_validation.py:27-34 | a key both maps hold with different values is in both mismatch maps |
| PricingValidation.NoMismatchIffSameLookups | pricing_validation.py:27-34 | both mismatch maps are empty exactly when the two dicts are equal |
| PricingValidation.EmptyWhenNoKeyMismatches | pricing_validation.py:27 | equal dicts have an empty mismatch map |
| PricingValidation.ExampleOf | pricing_validation.py:28-32 | there is no example exactly when the mismatch map is empty |
| PricingValidation.ExampleIsFirstMismatch | pricing_validation.py:27-39 | the example is the first entry in insertion order whose value the other map does not give back, with both values |
| PricingValidation.Compare | pricing_validation.py:22-48 | the line printed for one database: each mismatch count is at most the size of its map, and an example is shown exactly when its count is nonzero |
| PricingValidation.CompareReportsAgreement | pricing_validation.py:22-48 | the report shows zero mismatches both ways exactly when both collections give every key the same last truthy price |
| PricingValidation.ClassifyCounts | pricing_validation.py:115-123 | "no data" exactly when both totals are 0; "a collection is empty" exactly when one is; the comparison goes on exactly when both are positive; the warning that the sizes differ is given exactly when both are positive and unequal, and they agree exactly when both are positive and equal |
| PricingValidation.SumZero | pricing_validation.py:104-109 | a total over the accounts is 0 exactly when every account counts 0 |
| PricingValidation.CountDocuments | pricing_validation.py:100-112 | the accounts are the filter, or else the UAT accounts; the totals are the per-account sums, or the collection sizes when there are no accounts |
| PricingValidation.NoDataMeansNoDocuments | pricing_validation.py:104-117 | over a nonempty account list, "no data" exactly when no account has a document in either collection |
| PricingValidation.ExtraValues | pricing_validation.py:160-161 | the difference holds exactly the items of the first list not in the second, and is no longer than the first |
| PricingValidation.ExtraValuesAppend | pricing_validation.py:160-161 | the difference distributes over concatenation, so it keeps the first list's order |
| PricingValidation.BothExtrasEmpty | pricing_validation.py:152-162 | both differences are empty exactly when the lists hold the same items, so a difference can be reported with both differences empty |
| PricingValidation.Dedup | pricing_validation.py:130-138 | `distinct` keeps exactly the values of the list, each value once |
| PricingValidation.Starts | pricing_validation.py:137 | the listed start dates are exactly those of the matching documents |
| PricingValidation.Ends | pricing_validation.py:138 | the listed end dates are exactly those of the matching documents |
| PricingValidation.Products | pricing_validation.py:130 | the listed products are exactly those of the account's documents |
| PricingValidation.Zip | pricing_validation.py:139 | pairs by position, as long as the shorter list |
| PricingValidation.DateRangesListed | pricing_validation.py:137-139 | `DateRanges`, the zip of the distinct start and end dates: each pair has a start and an end date of matching documents, and there is none exactly when no document matches |
| PricingValidation.PricesAtFound | pricing_validation.py:142-145 | `PricesAt`, the two lookups for one range: a discount list found is that of a document of the account, the product and exactly that range; without such a document none is found |
| PricingValidation.FindOne | pricing_validation.py:144-145 | a found document is in the collection and matches; none means no document matches |
| PricingValidation.OutcomeOf | pricing_validation.py:146-162 | missing data exactly when either document is absent, with one found-flag per document; silent exactly when both exist with equal discount lists; different exactly when both exist and differ, and then the two extra lists are each side's values missing from the other |
| PricingValidation.ScanRanges | pricing_validation.py:141-162 | each range gets its outcome, and an issue is found exactly when it was found before or some range differs |
| PricingValidation.ProductListsAsWritten | pricing_validation.py:128-130 | as written: one list per account. A given product filter is used for every account, and once an account's list is nonempty, every later account gets that same list |
| PricingValidation.ProductLists | pricing_validation.py:130 | corrected: one product list per account |
| PricingValidation.ProductListsCover | pricing_validation.py:130 | each account gets the product filter, or else its own products |
| PricingValidation.EveryProductChecked | pricing_validation.py:130 | without a filter, every product of an account's UAT documents is in that account's list |
| PricingValidation.FirstListReused | pricing_validation.py:130 | as written, without a filter the first account's products are reused for the second account |
| PricingValidation.ProductFilterLeaks | pricing_validation.py:130 | as written, for two accounts with one product each, the second account's product is never checked |
| PricingValidation.RangeFiltersAsWritten | pricing_validation.py:129-143 | one date-range filter per product |
| PricingValidation.SecondRangeFilter | pricing_validation.py:129-143 | as written, the second product's filter carries the first product's last `frm` and `to` |
| PricingValidation.StaleDateFilter | pricing_validation.py:129-143 | as written, for two products on different dates, the second product's date query finds nothing, while the account-and-product query finds its range |
| PricingValidation.OnlyMatch | pricing_validation.py:137-139 | when one document alone matches, its dates are the only range |
| PricingValidation.NoMatch | pricing_validation.py:137-139 | when no document matches, there is no range |
| PricingValidation.RangeFilter | pricing_validation.py:129-138 | corrected: the date query's filter matches exactly the documents of the account and the product |
| PricingValidation.OwnDatesListed | pricing_validation.py:136-139 | with the account-and-product filter, every UAT document of the product contributes its start and end dates |
| PricingValidation.AccountsWithIssues | pricing_validation.py:128-165 | the accounts reported are among the accounts given |
| PricingValidation.CheckAccounts | pricing_validation.py:128-165 | corrected (see ## Findings): each account's own product list and the account-and-product date filter. With those, the loop reports exactly the accounts, in order, for which some product has a date range with differing discounts |
| PricingValidation.CheckProducts | pricing_validation.py:134-162 | corrected (see ## Findings): the account-and-product date filter for every product. With it, an issue is found for an account exactly when some product has a date range with differing discounts |
| PricingValidation.RemovableIsLonger | pricing_validation.py:195-200 | a removable collection name strictly extends the production name |
| PricingValidation.ToRemove | pricing_validation.py:195-200 | the list holds exactly the names that meet all six conditions |
| PricingValidation.PurgeLists | pricing_validation.py:193-201 | the concatenated lists hold exactly the names removable for some production collection |
| PricingValidation.CollectionsToRemove | pricing_validation.py:190-201 | the names to drop are exactly those removable for `sap_condition` or for `promotion_internal_price` |
| PricingValidation.KeepProduction | pricing_validation.py:171-179 | the kept ids are exactly those containing none of the eight excluded marks, each kept exactly as often as it occurs in the input |
| PricingValidation.Insert | pricing_validation.py:170 | insertion adds exactly one copy of the item |
| PricingValidation.InsertAscending | pricing_validation.py:170 | insertion into an ascending list keeps it ascending |
| PricingValidation.SortStrings | pricing_validation.py:170 | sorting permutes its input |
| PricingValidation.SortStringsAscending | pricing_validation.py:170 | the sorted list is ascending in Python's string order |
| PricingValidation.DbList | pricing_validation.py:170-180 | `db_list` holds exactly the ids with none of the excluded marks |
| PricingValidation.DbListSortedPermutation | pricing_validation.py:170-180 | `db_list` is ascending and holds each kept id as often as the input does |

## Left out

- SinglyLinked.SinglyLinkedList.SwapByValue: requires both values to be in the list. With a missing value the source rewires the chain first and then fails on `None.next`; that half-done state is not modelled.
- SinglyLinked: items are integers. The script stores only integers, and `str`/`int` are modelled for integers only. `display` and the script's printing are not modelled, and neither are `max`/`min`.
- SinglyLinked.SinglyLinkedList.ConcatenateNumbersReversed: does not model the limit on decimal conversions that CPython applies by default since 3.11 (4300 digits, configurable and off in earlier versions). Under that limit, `str` of an item with more than 4300 digits and `int` of a joined text with more than 4300 digits raise ValueError; here both succeed.
- SinglyLinked.ReversedConcatenationErrors: its "exactly when" holds for conversions without a digit limit only, for the reason above.
- SinglyLinked.SinglyLinkedList.Add: inherits the missing digit limit from the reversed concatenation.
- SinglyLinked.PyInt: models the forms of Python's `int` that joined `str`s of integers can produce (digits with an optional leading minus). It does not model `+`, blanks or `_`, which such text never contains.
- UserQueue.Queue.SortByValue: reading `__dict__[value]` is a key function, and `>` is a parameter that must be asymmetric. A KeyError for a missing attribute and a TypeError for values that cannot be compared are not modelled.
- UserQueue: the script's random users (Faker, `random`), its timing (`perf_counter`) and its printing are left out. The `filter` of middle-aged users is the input list of `FromItems`.
- CachingProxy: the socket server, `argparse`, the SIGINT handler, SSL and `urllib` are outside the model. The fetch is a parameter. The pickle format is not modelled: the cache file is an optional copy of the map.
- CachingProxy.UpstreamUrl: treats `urlparse(path).geturl()` as the path itself, although `geturl` can normalise some unusual paths.
- CachingProxy.Proxy.DoGet: a failure while writing the response or the cache file, after the entry is stored, falls into the generic `except` in the source. That path is not modelled. Concurrent requests are not modelled either.
- PricingValidation: database connections, `loop_all_dbs`, `drop_collection`, `sleep`, `print` and the verbose levels are left out. `ScanRanges` computes every outcome and both difference lists; the verbose level only chooses which of them are printed.
- PricingValidation.CheckProducts: models the corrected loop of lines 134-162. Each product gets a fresh account-and-product date filter, so the stale `frm` and `to` that `qf` carries in the source do not occur. The source can therefore miss issues that this member reports; `RangeFiltersAsWritten` and `StaleDateFilter` model the code as written.
- PricingValidation.CheckAccounts: models the corrected loop of lines 128-165. Each account gets its own product list, not the first nonempty list (`ProductListsAsWritten`), and products are checked as in `CheckProducts`.
- PricingValidation.Compare: models one database of `compare_pricing_data`. It leaves out the loop over databases, the collection-name formatting and the bare `except` that prints `Error!`.
- PricingValidation: the script's call on line 185 passes the table name as `aid_filter`, so it would iterate over its characters. That call is not modelled; `CountDocuments` and `CheckAccounts` take the account list as given.
- PricingValidation.OutcomeOf: a document with `prc` but without `disc` raises KeyError in the source; that case is not modelled.
- PricingValidation: prices are `real`, so floating-point rounding and NaN (which is unequal to itself) are not modelled.
- PricingValidation.Dedup: `distinct` is modelled as returning values in order of first occurrence. The database does not promise any order.

## Findings

| source | as written | input that shows it | evidently intended | confidence | as-written member | corrected member |
|---|---|---|---|---|---|---|
| pricing_validation.py:130 | `pid_filter = pid_filter or distinct('pid', ...)` stores the first account's products back into `pid_filter`, so later accounts reuse them | no product filter; UAT documents `(a1, p1)` and `(a2, p2)`; account `a2` is checked only for `p1`, so `p2` is never compared | with no filter, each account is checked for its own products | not executed | PricingValidation.ProductFilterLeaks | PricingValidation.ProductListsCover |
| pricing_validation.py:129,136-143 | `qf` is created once per account, so the second product's `distinct('frm'/'to', qf)` still filters on the first product's last `frm` and `to` | account `a`, product `p1` on dates 1-2 and `p2` on dates 3-4; the query for `p2` carries `frm=1, to=2` and finds no range, so `p2` is never compared | the date query filters on account and product only | not executed | PricingValidation.StaleDateFilter | PricingValidation.RangeFilter |
