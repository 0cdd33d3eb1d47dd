# extract-villages: the deduplicating village store, modelled in Dafny

The service reads a pasted page of a land-records site that holds four cascading dropdowns
(district, taluk, hobli, village). It turns every real village option into a record that
carries the selected district, taluk and hobli, appends the records to the ones stored in
`extracted_villages.json`, drops duplicates, and writes the file back.

This project models the three pieces of logic behind that, all from `extractVillages.js`:

- `removeDuplicates`: one pass over the records. It keeps a set of seen identifiers, and the
  identifier of a record is its four ids joined with `-`. The first record with an identifier
  is kept and every later one is dropped. Module `Dedup` has the method `RemoveDuplicates`,
  which is the loop with its set and its output array. It is proved equal to the specification
  function `Deduplicated`, a left-to-right `Scan` of `Step`s. The lemmas state what the source
  relies on: unique identifiers, every identifier kept, the input's order kept, the first record
  winning, idempotence, and the length bound.
- the option filter of `scrapeVillages`. Module `Scrape` takes the selector results as a `Page`
  value: the selected district, taluk and hobli (each an id and a text) and the village options
  in document order. The method `ScrapeVillages` is the `.each` loop. It is proved equal to
  `FilterVillages`, and the lemmas say which options come out, in what order, and with which
  shared fields.
- the `/scrape-html` handler. Module `Store` has `Merge(existing, batch)`, which removes
  duplicates from `existing + batch`. The method `ScrapeHtml` is the handler's sequence of
  steps. The file is passed in as `Option<seq<Record>>`, where `None` means the file does not
  exist. The method returns the records it would write and the scraped batch that forms the
  response. The lemmas cover first write wins, the stored records (deduplicated, when the
  file already held duplicates) staying in front, and idempotence of repeated submissions. They also show that merging batch after batch gives
  the same store as merging them all at once.

Module `Records` holds the record type and the identifier `Key`. Identity is stated over the
joined string, exactly as the code builds it, not over the tuple of ids. `KeyCollision` shows
two different id tuples with the same identifier. `KeyInjectiveWithoutDash` shows that the
string and the tuple agree once the taluk, hobli and village ids contain no `-`.

In three places the code is narrower than the service's intended design. The model follows
the code in each:

- A record is meant to be identified by its tuple of four ids. The code uses the joined
  string, so ids that contain `-` can collide.
- An "append-only" merge policy is meant to exist beside the "rebuild" one. The code only
  rebuilds: every submission deduplicates the whole stored history plus the batch and
  rewrites the file. Only that policy is modelled.
- The store is meant to be an unordered collection. The code keeps it as an array in
  insertion order, and the model states that order.

## Model

| member | source | states |
|---|---|---|
| `Records.SameIdsSameKey` | extractVillages.js:13 | records that agree on district, taluk, hobli and village id get the same identifier |
| `Records.KeyCollision` | extractVillages.js:13 | there are two records with different id tuples and equal identifiers ("1-2","3" against "1","2-3") |
| `Records.KeyInjectiveWithoutDash` | extractVillages.js:13 | when the taluk, hobli and village ids contain no "-", two identifiers are equal exactly when the four ids are equal |
| `Dedup.RemoveDuplicates` | extractVillages.js:8-21 | the loop with its seen-set and output array returns exactly `Deduplicated(data)`, whose identifiers are distinct; the lemmas below give that function's keys, order and first-wins choice |
| `Dedup.ScanPrefix` | extractVillages.js:12-18 | the loop never removes or reorders the records it has already kept, and it adds at most one record per item |
| `Dedup.ScanKeys` | extractVillages.js:12-18 | the identifiers kept after the loop are the ones kept before plus those of all items processed |
| `Dedup.ScanDistinct` | extractVillages.js:14-16 | if the kept records have distinct identifiers, they still do after any number of items |
| `Dedup.ScanTail` | extractVillages.js:14-16 | the records the loop adds form a subsequence of the items, and none of them has an identifier that was already kept |
| `Dedup.ScanFirstWins` | extractVillages.js:14-16 | every record the loop adds is the first item with its identifier |
| `Dedup.ScanCovered` | extractVillages.js:14 | items whose identifiers have all been seen leave the output unchanged |
| `Dedup.ScanAppend` | extractVillages.js:12-18 | one pass over a + b is a pass over a, continued over b |
| `Dedup.ScanKeepsAll` | extractVillages.js:14-16 | if the output gained one record per item, it is the kept records followed by all the items |
| `Dedup.DeduplicatedDistinct` | extractVillages.js:13-17 | no two records of the result share an identifier |
| `Dedup.DeduplicatedKeys` | extractVillages.js:12-17 | the identifiers of the result are exactly those of the input, so a record is dropped only if an earlier one had its identifier |
| `Dedup.DeduplicatedOrder` | extractVillages.js:12-17 | the result is the input with some records deleted, in the input's order |
| `Dedup.DeduplicatedFirstWins` | extractVillages.js:14-16 | each record of the result is the first input record with its identifier |
| `Dedup.DeduplicatedFixpoint` | extractVillages.js:8-21 | input with distinct identifiers comes back unchanged |
| `Dedup.DeduplicatedIdempotent` | extractVillages.js:8-21 | removing duplicates twice gives the same result as removing them once |
| `Dedup.DeduplicatedLength` | extractVillages.js:8-21 | the result is at most as long as the input, and as long exactly when the input's identifiers are all distinct |
| `Dedup.CollisionDropsVillage` | extractVillages.js:13-17 | of two different villages whose ids join to the same identifier ("1-2","3" and "1","2-3"), removeDuplicates keeps the first and drops the second |
| `Scrape.ScrapeVillages` | extractVillages.js:32-42 | the `.each` loop returns `FilterVillages` of the page's village options; every record carries the page's district, taluk and hobli and a non-"0" village, and the villages are page options in document order |
| `Scrape.FilterVillagesAppend` | extractVillages.js:34-40 | filtering a concatenation of options is the concatenation of the filtered parts |
| `Scrape.FilterVillagesShared` | extractVillages.js:26-38 | every emitted record has the selected district, taluk and hobli ids and labels, and a village id other than "0" |
| `Scrape.FilterVillagesOrder` | extractVillages.js:34-40 | the (villageId, villageValue) pairs emitted are a subsequence of the options, in document order |
| `Scrape.FilterVillagesExact` | extractVillages.js:37-38 | each option whose value is not "0" is emitted exactly as often as it occurs, and an option with value "0" never is |
| `Scrape.OnlyPlaceholderYieldsNothing` | extractVillages.js:37 | a village dropdown holding only "0" options yields no records |
| `Scrape.AllRealOptionsKept` | extractVillages.js:34-40 | N options with non-"0" values yield exactly N records, whose villages are the options in order |
| `Scrape.FilterVillagesRealOptions` | extractVillages.js:34-40 | on any page, placeholder included, the emitted villages are exactly the options whose value is not "0", in document order, one record each |
| `Store.ScrapeHtml` | extractVillages.js:125-144 | the handler returns the scraped batch, and what it saves is `Merge` of the stored records (none when the file is missing) with that batch; what it saves has distinct identifiers and covers every stored and scraped identifier |
| `Store.MergeDistinct` | extractVillages.js:135-138 | whatever the store held, duplicates included, the merged result has distinct identifiers, and its identifier set is the union of the store's and the batch's |
| `Store.MergeFirstWriteWins` | extractVillages.js:135-138 | for an identifier the store already has, the merged record is the store's first record with it, and the batch's labels are discarded; any other identifier is represented by the batch's first record with it |
| `Store.MergeKeepsStore` | extractVillages.js:135-138 | a duplicate-free store is an unchanged prefix of the merged result; behind it come only batch records with identifiers new to the store, in batch order |
| `Store.MergeStoreFirst` | extractVillages.js:135-138 | for any store, duplicates included, the deduplicated store is an unchanged prefix of the merged result; behind it come only batch records with identifiers new to the store, in batch order |
| `Store.MergeHistory` | extractVillages.js:129-141 | merging one batch and then another gives the same store as merging both batches at once, so the store depends only on the submission history |
| `Store.MergeIdempotent` | extractVillages.js:129-141 | submitting the same batch twice in a row leaves the store as one submission did |
| `Store.SampleSubmittedTwice` | extractVillages.js:125-141 | the page Bengaluru/Anekal/X with options 10 Alpha, 0 Select Village, 11 Beta yields Alpha and Beta; merged into an empty store it gives those two records, and a second submission still leaves two |

## Left out

- The Express application: setup, routing, static files, the JSON retrieval route and `app.listen` (extractVillages.js:1-5, 46-59, 125-127, 143-151). This is HTTP plumbing.
- The inline HTML and JavaScript form page (extractVillages.js:59-123). This is user interface.
- File existence checks, reads and writes of `extracted_villages.json`, and its JSON encoding. This is I/O. The file's contents are passed in as an `Option`, and what would be written is returned.
- The cheerio DOM load and the CSS selector queries (extractVillages.js:25-31, 34-36). This is a foreign library. Their results are the `Page` input.
- JavaScript coercion of a selector miss (`undefined` in the record, "undefined" inside the identifier). Every field is a string in the model.
- Read-modify-write races between concurrent submissions. A request runs as one sequential step here.
