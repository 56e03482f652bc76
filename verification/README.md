# Wildberries price watcher: extraction and notify step

The bot asks the Wildberries search API for each configured query. It pulls
priced products out of whatever JSON comes back and sends one Telegram
message per product priced at or below the query's rouble threshold. Each
message is remembered under a de-duplication key, so a product is not
announced twice at the same whole-rouble price.

This project models the two pure parts of that bot in Dafny.

- **Extraction** (`parse_search_results`), in `extract.dfy`:
  - Candidates are found in three tiers, tried in order:
    1. the first top-level key among `data`, `items`, `products`, `subjects` that holds a list;
    2. failing that, the first of `products`, `subjects`, `items` under a `data` mapping;
    3. failing both, a depth-first scan for mappings that have an `id` and a price-like key.
  - Each field is read through Python `or` chains, which use Python's truthiness rules.
  - The price is normalised to whole kopecks. It may be an int, a bool, a float, or an ASCII digit string.
  - The product url is built from the id.
- **Notify step** (the per-item body of `main_loop`), in `notify.dfy`:
  - It applies the inclusive rouble threshold and builds the de-duplication key `query__identity__roubles`.
  - It checks that key against the set of keys already notified.
  - It records the key only after a successful send.
  - The send outcome is an input of the step.
- **Supporting files**:
  - `json.dfy` models the decoded payload and Python's `dict.get`, `in` and `isinstance` on it.
  - `pytext.dfy` models `str()`, `int()` truncation and `isdigit`.
  - `seqs.dfy` holds an order-preserving filter-map with its proofs.
  - `scenarios.dfy` works through concrete payloads.
  - `aliasing.dfy` models the extraction as written, object identity included (see Findings).

Prices are kept as integer kopecks, never as floats. The source's value
`price_rub` is `int(price_u) / 100.0`, and it is always compared against a
whole number of roubles. So the test `price_rub <= threshold` is modelled as
`kopecks <= 100 * threshold`. `AtOrBelowIsRoubleComparison` proves that this
equals the comparison over the reals.

## Model

| member | source | states |
|---|---|---|
| Extract.FirstList | wb_price_bot.py:93-96 | the list chosen is the one under some probed key; there is none exactly when no probed key holds a list |
| Extract.FirstListAt | wb_price_bot.py:93-96 | when the i-th key is the first to hold a list, that list is the one chosen (the `break` stops at it) |
| Extract.FirstEmptyStops | wb_price_bot.py:93-98 | when the first key holding a list holds an empty one, the tier yields nothing, whatever later keys hold |
| Extract.TieredList | wb_price_bot.py:89-102 | a non-mapping payload yields no tiered list; a non-empty tiered list is the first list found under a top-level key or, failing that, under a key of the `data` mapping |
| Extract.TierEmptyIff | wb_price_bot.py:93-98 | a tier yields nothing exactly when no key holds a list, or the first key that holds one holds an empty list (later keys are then not consulted) |
| Extract.TopTierWins | wb_price_bot.py:93-96 | when the i-th top-level key is the first to hold a list and that list is non-empty, the candidates are exactly that list |
| Extract.NestedTierWins | wb_price_bot.py:98-102 | when tier one yields nothing and `data` is a mapping whose i-th nested key is the first to hold a list, and that list is non-empty, the candidates are exactly that list |
| Extract.ScanIffTiersEmpty | wb_price_bot.py:89-115 | the scan decides the candidates exactly when both tiers yield nothing; otherwise the tiered list does |
| Extract.Candidates | wb_price_bot.py:89-115 | a non-empty tiered list is the candidate list; otherwise the candidates are exactly the matching mappings found anywhere in the payload |
| Extract.Scan | wb_price_bot.py:106-114 | everything the scan collects has an `id` and a price-like key; a matching mapping comes before its descendants |
| Extract.ScanIsPreorderFilter | wb_price_bot.py:106-115 | the scan's result is the pre-order listing of every value in the payload, filtered to matching mappings |
| Extract.ScanCollectsExactly | wb_price_bot.py:106-115 | a value is collected exactly when it matches and occurs somewhere in the payload |
| Extract.ScanCollectsAll | wb_price_bot.py:106-115 | the same, for every value at once |
| Extract.NestedMatchCollected | wb_price_bot.py:107-111 | a matching mapping is collected, and a matching mapping stored in one of its fields is collected after it |
| Extract.MatchesMember | wb_price_bot.py:108-109 | the reference filter keeps exactly the matching values |
| Extract.MatchesAppend | wb_price_bot.py:110-114 | filtering distributes over concatenation, the way the scan walks siblings one after another |
| Extract.OrChain | wb_price_bot.py:119-122 | an `or` chain gives its first truthy operand, or its last operand when none is truthy |
| Extract.PidFallback | wb_price_bot.py:119 | the id is `id` if truthy, else `nm_id` if truthy, else whatever `sku` holds (null when absent) |
| Extract.NameFallback | wb_price_bot.py:120 | the name is `name`, `title` or `brand` (the first truthy one), else the empty string; it is never null |
| Extract.RawPriceFallback | wb_price_bot.py:122 | the raw price is `salePriceU` if truthy, else `priceU` if truthy, else whatever `price` holds |
| Extract.MappingPriceDropped | wb_price_bot.py:122-132 | a product whose chosen raw price is a mapping yields no item; and a raw price of None rules out a mapping stored under `price`, so the nested `sale`/`now` lookup can never run |
| Extract.KopecksReadsNumbers | wb_price_bot.py:129-132 | an int price is taken as kopecks unchanged, and an ASCII digit string is read as its decimal value |
| Extract.KopecksReadsFloatsAndBools | wb_price_bot.py:129-130 | a float price is always usable and is truncated toward zero, for both signs; a boolean counts as 1 or 0 |
| Extract.KopecksLeadingZero | wb_price_bot.py:131-132 | every ASCII digit string is a usable price, and a leading zero does not change its value |
| Extract.KopecksRejects | wb_price_bot.py:128-132 | null, list and mapping prices give no price; a string gives one only when it is non-empty and all ASCII digits |
| Extract.ToItem | wb_price_bot.py:117-141 | a candidate yields an item exactly when it is a mapping with a usable price; the id is `str(pid)`; there is a url exactly when pid is truthy, and it is the catalog url around that id |
| Extract.ItemIdEmptyOnlyWithoutUrl | wb_price_bot.py:134-139 | an item's id is empty exactly when pid is the empty string, and such an item has no url |
| Extract.ParseKeepsCandidates | wb_price_bot.py:117-139 | an item is in the result exactly when some candidate yields it; items keep candidate order; every candidate that is skipped yields nothing |
| Extract.ParseSearchResults | wb_price_bot.py:82-144 | an item is in the result exactly when some candidate yields it, and there are at most as many items as candidates |
| Extract.FallbackRecoversNested | wb_price_bot.py:104-115 | when neither tier finds a list, every matching mapping anywhere in the payload with a usable price appears as an item |
| Seqs.FilterMapKeepsOrder | wb_price_bot.py:117-139 | the i-th item comes from the i-th kept candidate; kept positions increase; positions not kept yield nothing |
| Seqs.FilterMapMember | wb_price_bot.py:117-139 | an item is produced exactly when some element yields it |
| Seqs.FilterMapMembers | wb_price_bot.py:117-139 | the same, for every item at once |
| Seqs.KeptItemAt | wb_price_bot.py:117-139 | the kept position of the i-th item lies inside the input, and the element at that position yields the item |
| PyText.DigitsValueNatText | wb_price_bot.py:131-132 | `int()` of the decimal text of n gives back n |
| PyText.DigitsValueLeadingZero | wb_price_bot.py:132 | `int()` of a digit string is unchanged by a leading zero |
| PyText.IntTextRoundTrip | wb_price_bot.py:186 | the decimal text of a signed whole-rouble count parses back to that count |
| PyText.IntTextInjective | wb_price_bot.py:186 | different rouble counts give different texts in the key |
| PyText.TruncDiv100 | wb_price_bot.py:186 | whole roubles from kopecks truncate toward zero, for negative amounts too |
| PyText.TruncReal | wb_price_bot.py:129-130 | `int()` of a float truncates toward zero |
| PyText.PyStr | wb_price_bot.py:139 | `str(pid)` is empty only for the empty string |
| Notify.AtOrBelowIsRoubleComparison | wb_price_bot.py:185 | the kopeck test equals `price_rub <= threshold` over the reals |
| Notify.WholeRoublesIsPythonInt | wb_price_bot.py:186 | truncating kopecks/100 equals `int()` of the rouble price |
| Notify.IdentityIsOrChain | wb_price_bot.py:186 | the identity part of the key is `str()` of the first truthy of the item's id, url and name, or of the name when none is truthy |
| Notify.DedupKeySplits | wb_price_bot.py:186 | the key is the query, `__`, the identity, `__` and the decimal text of the whole-rouble price, in that order; the price text is what follows the last `__` and reads back as that number |
| Notify.IdentityIgnoresUrl | wb_price_bot.py:186 | the identity part of the key is the item id when that is non-empty, and otherwise the name's text; the url fallback can never be chosen |
| Notify.TailLengthAfterSeparator | wb_price_bot.py:186 | the rouble part is recovered as the text after the last `__` of the key |
| Notify.SplitAtLastSeparator | wb_price_bot.py:186 | two keys that are equal, and whose last parts contain no underscore, agree on both parts |
| Notify.DedupKeyInjective | wb_price_bot.py:186 | within a query, equal keys mean equal identity and equal whole-rouble price |
| Notify.Step | wb_price_bot.py:184-203 | the item is skipped exactly when its rouble price exceeds the threshold; it is already notified exactly when it qualifies and its key is present; it is delivered exactly when it qualifies, its key is new and the send succeeded; a delivery adds exactly its key; every other outcome leaves the set unchanged |
| Notify.ThresholdIsInclusive | wb_price_bot.py:185 | a price equal to the threshold qualifies |
| Notify.StepAtMostOnce | wb_price_bot.py:187-200 | after a delivery the same item is reported as already notified, whatever the next send would do |
| Notify.StepFailureRetries | wb_price_bot.py:197-203 | a failed send records nothing, so the next step behaves as if the item had not been seen |
| Notify.ProcessItems | wb_price_bot.py:183-205 | one outcome per item; the notified set only grows |
| Notify.ProcessFromSplit | wb_price_bot.py:183-203 | running the item loop over the first j items and then on from item j gives the same set and outcomes as running it in one go |
| Notify.ProcessStepAt | wb_price_bot.py:183-203 | outcome j is the step on item j taken with the set the earlier items left behind, and that step's set is what the first j+1 items leave behind; together these fix every outcome and the final set |
| Notify.ProcessDelivered | wb_price_bot.py:185-200 | a delivery means the item qualified, its send succeeded, its key was not present before, and it is present afterwards |
| Notify.ProcessDeliveredOnce | wb_price_bot.py:186-200 | two deliveries in one pass carry different keys |
| Notify.ProcessRecordsDeliveries | wb_price_bot.py:198-199 | every key added during a pass is the key of an item delivered in it |
| Notify.ProcessItemsAtMostOnce | wb_price_bot.py:183-203 | over a whole result list, a delivered item qualified, was new and is recorded, and no later delivery repeats its key |
| Notify.ProcessItemsOnlyRecordsDeliveries | wb_price_bot.py:198-199 | every key added over a whole result list belongs to a delivered item |
| Notify.SameItemTwiceNotifiedOnce | wb_price_bot.py:186-199 | a qualifying item listed twice is delivered once and then reported as already notified |
| Notify.SearchItems | wb_price_bot.py:147-170 | a failed search yields no items; an item is found exactly when some candidate of the decoded answer yields it |
| Notify.CycleFrom | wb_price_bot.py:177-207 | over one round of queries the set only grows, and every new key is the key of a qualifying item found for one of the queries |
| Notify.CycleFromSplit | wb_price_bot.py:177-207 | running the queries before j and then those from j on gives the same set as running the round in one go |
| Notify.CyclePassRecorded | wb_price_bot.py:177-207 | query qi gets the full item pass, starting from the set the earlier queries left behind, and every key that pass records is in the set at the end of the round |
| Scenarios.NestedAnswerParses | wb_price_bot.py:98-139 | `{"data": {"products": [{"id": 123, "salePriceU": 4999900, "name": "iPhone 16"}]}}` gives one item priced 4999900 kopecks, with its catalog url |
| Scenarios.NestedAnswerNotifies | wb_price_bot.py:183-200 | that item is delivered under `Iphone 16__123__49999` and that key is added |
| Scenarios.StringPriceAboveThreshold | wb_price_bot.py:93-185 | a digit-string price of 123456 roubles is read and then skipped as above the threshold |
| Aliasing.WalkNodeIsScan | wb_price_bot.py:106-114 | when `products` is a fresh list, the as-written walk collects exactly what the scan collects, appended to what was there |
| Aliasing.ParseAsWritten | wb_price_bot.py:82-144 | when a tier finds products, the as-written extraction finishes and equals the corrected one; when no empty payload list is bound to `products`, it equals the corrected one whenever it finishes |
| Aliasing.FreshWalkIsScan | wb_price_bot.py:105-115 | from the payload root, with `products` a fresh list, a walk that finishes collects exactly what the scan collects |
| Aliasing.WalkNodeFinishes | wb_price_bot.py:106-114 | when `products` is a fresh list, the walk finishes once it has one step of fuel per node and per sibling |
| Aliasing.AsWrittenFinishesWithoutAlias | wb_price_bot.py:89-117 | when no empty payload list is bound to `products`, the as-written extraction finishes at any fuel of at least the payload's size, and equals the corrected one |
| Aliasing.WalkNodeMonotone | wb_price_bot.py:106-114 | a walk that finishes gives the same answer with any larger fuel, whichever list is bound to `products` |
| Aliasing.ParseAsWrittenMonotone | wb_price_bot.py:89-117 | once the as-written extraction finishes, more fuel gives the same answer, so `None` at every fuel means it never finishes |
| Aliasing.ProbeWalk | wb_price_bot.py:107-111 | walking `{"id": 1, "price": 5}` either runs out of fuel or appends it exactly once |
| Aliasing.LiveWalkNeverEnds | wb_price_bot.py:112-114 | walking `products` while it holds only copies of the probe `{"id": 1, "price": 5}`, and the walk has not reached its end, never finishes: each step appends one more copy |
| Aliasing.LoopAnswerNeverFinishes | wb_price_bot.py:93-115 | `{"x": {"id": 1, "price": 5}, "items": []}` never finishes under the as-written extraction, at any fuel |
| Aliasing.LoopAnswerCorrected | wb_price_bot.py:104-139 | the corrected extraction gives that answer's one item, priced 5 kopecks, with id `1` |

## Left out

- HTTP requests to the search API, the Telegram send, and their timeouts and status checks. The search answer and the send outcome are inputs: `SearchItems` takes an optional decoded answer, and `Step` takes `sendOk`.
- Decoding JSON text, including the fallback that re-parses the text from its first `{`. The model starts from a decoded value, and a failed decode is the `None` answer.
- Loading and saving the notified set (`notified.json`). Any load failure gives an empty set, and save errors are only printed, so the set is a plain value passed along.
- The endless `while` loop, `time.sleep`, environment variables, `KeyboardInterrupt` and logging. `CycleFrom` models one round over the queries.
- The text of the Telegram message. It does not influence what is recorded.
- Extract.Kopecks: prices are exact integers and reals, not IEEE doubles. This leaves out three behaviours:
  - An int or digit-string price beyond the double range (about 1.8e308) makes `int(price_u) / 100.0` (wb_price_bot.py:130 and 132) raise OverflowError. The `except` at line 140 then skips the product, but the model keeps it, and a hugely negative such price would be delivered.
  - From about 2^46 roubles up, the float quotient `price_rub` is rounded. So the comparison at line 185 and the `int()` at line 186 can differ from the exact kopeck arithmetic modelled here.
  - A float price is truncated exactly. NaN and the infinities, which make `int()` raise, are not represented.
- PyText.IsDigit: accepts only ASCII `0`-`9`, so a product whose string price uses other digits is always dropped. In Python, `str.isdigit` and `int()` both accept every Unicode decimal digit. A fullwidth `"１２３"` or an Arabic-Indic `"١٢٣"` price is read as 123 kopecks, and the model drops that product. Only digits that are not decimal, such as `²`, pass `isdigit` but make `int()` raise, so those products are skipped in both. Python's 4300-digit limit on `int()` of a string is not modelled either.
- Extract.Scan: the recursion has no depth limit here, so RecursionError is not modelled. In Python a payload nested deeper than about 1000 levels makes the whole extraction return `[]`.
- Json.Get: reads the first field carrying a key. Python's `json` module keeps the last one, so payloads with repeated keys are outside the model.
- PyText.PyStr: floats, lists and mappings are rendered as fixed placeholders, not as Python's `str()`. Distinct float, list or mapping ids (or names, when the name decides the identity) therefore share one text. Two such items with the same query and whole-rouble price get one de-duplication key here (wb_price_bot.py:186), so the model reports the second as already notified where the source sends both, for example ids `1.5` and `2.5`. The url text differs too: the model writes the placeholder where the source writes the value (line 136). For ints, strings, booleans and None the text is exact.
- Aliasing.ParseAsWritten: the as-written walk is bounded by fuel, and `None` stands for "did not finish within the bound". Without aliasing it provably finishes once the fuel reaches the payload's size, and once it finishes more fuel changes nothing. The proof that it never finishes covers only the one payload shown; other payloads that alias a list are not characterised.

## Findings

| source | as written | input that shows it | evidently intended | confidence | as-written member | corrected member |
|---|---|---|---|---|---|---|
| wb_price_bot.py:93-115 | when tier one or tier two stops at an empty list, `products` is that list object of the payload itself; the fallback scan appends into it, and on reaching it walks the products appended so far plus the ones it keeps appending | `{"x": {"id": 1, "price": 5}, "items": []}` (the scan appends the probe into `items`, reaches `items`, re-walks the probe, appends it again, and so on; the list grows by one element per step until memory runs out, and the resulting MemoryError is caught, so the call at best returns `[]` after a very long time) | the scan collects into a fresh list and the call returns the one product | high; not executed | Aliasing.ParseAsWritten (Aliasing.LoopAnswerNeverFinishes) | Extract.ParseSearchResults (Aliasing.LoopAnswerCorrected, Extract.FallbackRecoversNested) |
