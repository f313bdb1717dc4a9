# Hempies COA sync — a Dafny model

This project models the core of the Hempies certificate-of-analysis (COA) tooling. It has three parts.

- **The Square → Airtable sync** (`airtable-coa.py`). This part does the following:
  - Pages through Square's catalog with a cursor, collecting categories and in-stock item variations.
  - Pages through Square's vendor search (`vendors/search`) the same way, collecting vendors.
  - Drops items whose category is on the `EXCLUDED_CATEGORIES` list.
  - Indexes the existing Airtable rows by `ProductID` / `VendorID`.
  - Updates a row when it exists and creates one when it does not.
  - Deletes every existing row whose id the run did not keep.
  - Counts what happened in `stats`.
- **The COA dashboard** (`class-hempies-coa-dashboard.php`). This is a WordPress admin page with four AJAX handlers:
  - the product listing;
  - COA upload;
  - status update;
  - exclusion.

  Every state change goes through one activity log per product.
- **The sync-status object** (`Hempies_COA_Airtable.php`). It holds the credentials, a running flag and a log.

The modules follow that structure.

- `Wrappers` holds `Option`.
- `Text` holds the Python string operations the sync relies on:
  - ASCII `lower()`;
  - `strip()`;
  - `split(',')` and its inverse `Join`.
- `Paging` models cursor paging once, generically:
  - A fetch sees a finite sequence of responses.
  - Each response is either a transport error or a listing of objects with an optional cursor.
  - `Fetched(pages)` is what the fetch loop returns.
  - The lemmas say which responses are consumed and that partial results are kept.
- `SquareCatalog` holds the Square objects and the records the fetches produce.
- `SyncRules` holds the pure decisions of the sync:
  - the exclusion list and the exclusion test;
  - `has_stock`;
  - the full product name;
  - vendor id, contact and address selection.
- `SquareFetch` holds the three `fetch_square_*` functions. Each is written as nested loops over the pages and over each page's objects. Each loop is proved to compute a specification function of the fetched objects.
- `AirtableSync` covers the following:
  - indexing the existing rows;
  - product reconciliation, with its `stats` counters in a class;
  - stale-row deletion;
  - vendor reconciliation.
- `CoaDashboard` models the dashboard as a class over the WordPress posts and the post meta, with pure functions for each state change.
- `SyncStatus` models the sync-status class.

Network calls are not executed by the model. Instead:

- A Square or Airtable listing is a parameter: the sequence of responses, or the listing result.
- Whether an Airtable write succeeds is a parameter `succeeds`, an oracle keyed by the write.
- Clocks and WordPress user ids are parameters.

Some behaviours of the modelled code are worth stating outright.

- **Exclusion list entries are used as given** (`airtable-coa.py:19`, `86-109`).
  - They are not trimmed, and blank entries are not dropped.
  - A category id must match an entry exactly.
  - A category name matches either exactly or after ASCII lower-casing both sides.
  - Each item carries one category, not a list of categories.
- **Stale rows are deleted** (`airtable-coa.py:380-389`, `533-541`). A product or vendor row whose id the run did not keep is removed. No "Draft", "Archived" or "Excluded" status is written.
- **`start_sync` in `src/Hempies_COA_Airtable.php` always succeeds** (lines 20-25, 34-39).
  - It does not refuse while a sync is running.
  - It does not check credentials.
  - Its log has no entry cap.
- **The WordPress plugin file has its own, fuller sync.** `Hempies Code Airtable/hempies-coa-db/hempies-coa-db.php` has these things, and that file is outside this model:
  - a guarded `start_sync`;
  - a persisted queue drained in batches;
  - a 100-entry log cap;
  - a progress percentage;
  - notification emails.
- **The dashboard tests strings the PHP way** (`class-hempies-coa-dashboard.php:158-172`).
  - A meta value `""` or `"0"` is false in the `?:` fallbacks of the row.
  - It is also false in the `&&` tests of the status.
  - The listing query itself only asks whether `sku` exists, so a product whose `sku` is `""` or `"0"` is still listed, with SKU `N/A`.
- **An upload is invisible to the listing.**
  - The upload stores `_coa_file` and `_coa_status`.
  - The listing reads `coa_document` and `show_coa`.
  - So an upload changes no listed product and no listing row. `UploadInvisibleToListing` proves this as the code's behaviour.

## Model

| member | source | states |
|---|---|---|
| Text.Split | airtable-coa.py:19 | `split(',')` yields at least one piece, no piece contains the separator, and joining the pieces gives back the input |
| Text.SplitJoin | airtable-coa.py:19 | splitting a join of separator-free pieces gives back exactly those pieces (round trip) |
| Text.StripSpec | airtable-coa.py:355-357 | `strip()` leaves no whitespace at either end, is empty exactly when the input is all whitespace, and leaves an unpadded string unchanged |
| Text.TrimStartSpec | airtable-coa.py:462 | the left trim removes exactly the longest all-whitespace prefix |
| Text.TrimEndSpec | airtable-coa.py:462 | the right trim removes exactly the longest all-whitespace suffix |
| SyncRules.ExcludedCategories | airtable-coa.py:19 | the exclusion list is the comma-split of the environment variable, or of the default when it is unset; its entries contain no comma and join back to that text |
| SyncRules.DefaultExclusionList | airtable-coa.py:19 | without the variable, the list is exactly the five default categories |
| SyncRules.AnyEqualsIgnoringCase | airtable-coa.py:103-109 | the case-insensitive loop returns true iff some lower-cased entry equals the lower-cased name |
| SyncRules.IsExcludedCategory | airtable-coa.py:86-109 | excluded iff the name is non-empty and either the id is an entry or the name equals an entry ignoring case (both directions) |
| SyncRules.ExclusionByAnyEntry | airtable-coa.py:86-109 | exclusion is an OR over the list: a category excluded by id or by name stays excluded when entries are added on either side, for the id-carrying call of the fetch and the id-less call of the reconciliation alike |
| SyncRules.HasStock | airtable-coa.py:136-150 | true iff some inventory count parsed and is above zero |
| SyncRules.FullName | airtable-coa.py:221-223 | the name is the item name exactly when the variation name is empty or equal to it, and is otherwise `item - variation`; it always starts with the item name |
| SyncRules.FirstVendorId | airtable-coa.py:206-212 | none iff no vendor info is both live and names a vendor; otherwise the id of the first such entry |
| SyncRules.PrimaryContact | airtable-coa.py:431-435 | none iff every contact is removed; otherwise the first contact not removed |
| SyncRules.RawAddressParts | airtable-coa.py:437-454 | the address line starts with line 1, equals it iff every later part is empty, and ends with ` postal` when a postal code is present |
| SyncRules.EmptyAddress | airtable-coa.py:437-462 | a vendor without address parts gets the empty address |
| SyncRules.UnpaddedAddress | airtable-coa.py:437-462 | whenever the joined line has no outer whitespace, with or without a postal code, the stored address is that line, untrimmed |
| SyncRules.PostalAddress | airtable-coa.py:437-462 | with an unpadded line 1 and postal code, the stored address is the parts in order with their separators, ending in ` postal` |
| Paging.Consumed | airtable-coa.py:67-81 | the processed responses are a prefix: each is a listing with objects, all but the last carry a cursor, and the first unprocessed one is an error, an empty page or follows a cursor-less page |
| Paging.PartialResultsKept | airtable-coa.py:67-81 | a transport error or an empty page after k good pages returns the objects of those k pages, not nothing |
| Paging.FetchedFrom | airtable-coa.py:70-72 | every returned object was listed on a processed response |
| Paging.FlattenMembership | airtable-coa.py:70-72 | an object is in the concatenated pages iff some page lists it |
| Paging.MapObjectsAt | airtable-coa.py:429-463 | the per-object loop yields one result per object, at that object's position |
| SquareFetch.CategoryIndexSpec | airtable-coa.py:70-72 | an id is in the category map iff some named category object has it, and it maps to the name of the last such object |
| SquareFetch.AddCategories | airtable-coa.py:70-72 | the per-page loop extends the map built so far to the map of all objects seen |
| SquareFetch.FetchSquareCategories | airtable-coa.py:45-84 | the returned map is the category map of the fetched objects |
| SquareFetch.AddVariations | airtable-coa.py:199-235 | the variation loop appends exactly the records of the in-stock variations, in order |
| SquareFetch.AddObject | airtable-coa.py:179-253 | one object appends exactly the records it contributes |
| SquareFetch.AddItems | airtable-coa.py:179-253 | the per-page item loop extends the records so far to the records of all objects seen |
| SquareFetch.FetchSquareItems | airtable-coa.py:152-264 | the returned items are the records of the fetched item objects under the fetched category map |
| SquareFetch.VariationRecordsMembership | airtable-coa.py:199-235 | a record comes from the variation loop iff some variation of the item has stock and yields it |
| SquareFetch.ObjectRecordsMembership | airtable-coa.py:179-253 | an object contributes a record iff it is a live, non-excluded item and the record is one of its in-stock variations or its stocked simple record |
| SquareFetch.ItemRecordsMembership | airtable-coa.py:179-253 | a record is emitted iff some fetched object contributes it |
| SquareFetch.ItemRecordsExactly | airtable-coa.py:179-253 | a record is emitted iff some fetched object is an eligible item that yields it (both directions) |
| SquareFetch.EmittedRecordFacts | airtable-coa.py:186-196 | every emitted record has quantity 1 and a category excluded neither by id nor by name |
| SquareFetch.AddVendors | airtable-coa.py:429-463 | the per-page vendor loop extends the records so far to the records of all vendors seen |
| SquareFetch.FetchSquareVendors | airtable-coa.py:394-474 | the returned vendors are one record per fetched vendor object |
| SquareFetch.VendorRecordsAt | airtable-coa.py:429-463 | there are as many vendor records as vendors, each built from the vendor at the same position |
| AirtableSync.GetExisting | airtable-coa.py:266-306 | the loop over the listing builds the key index; a failed listing gives the empty index |
| AirtableSync.IndexByKeySpec | airtable-coa.py:297-300 | a key is indexed iff it is non-empty and some row carries it, and it maps to the record id of the last such row |
| AirtableSync.ExistingKeys | airtable-coa.py:266-306 | every indexed key is non-empty and comes from a row of a successful listing |
| AirtableSync.DeleteStale | airtable-coa.py:380-389 | deletes are attempted for every existing key outside the keep set, exactly once each and for nothing else; the count is the number whose delete succeeded |
| AirtableSync.RemovedBound | airtable-coa.py:380-389 | only stale keys are removed: the removed set is disjoint from the keep set and no larger than the stale set |
| AirtableSync.SyncStats.constructor | airtable-coa.py:36-43 | all six counters start at zero |
| AirtableSync.ProductCategory | airtable-coa.py:355-357 | the category is written iff the name has a visible character; the written value has no edge whitespace and equals the name when the name is unpadded |
| AirtableSync.ReconcileProduct | airtable-coa.py:323-378 | one item is processed once, kept iff not excluded by name, written as an update of its row or a create, and adds its tally to the counters |
| AirtableSync.ReconcileProducts | airtable-coa.py:323-378 | the product loop keeps exactly the non-skipped ids, issues the write of each kept item in order, adds one to `processed` per item, and adds the tallies to `created`, `updated` and `skipped` |
| AirtableSync.SyncSquareToAirtable | airtable-coa.py:308-392 | the whole product sync: fetched items, the existing index, the kept ids, the writes, the stale deletes, and the final counters (`total` = item count, `removed` = successful deletes) |
| AirtableSync.KeptIdsSpec | airtable-coa.py:332-338 | an id is kept iff some item with that id is not skipped by the name test |
| AirtableSync.ProductWritesSpec | airtable-coa.py:340-378 | a write is issued iff it is the write of a non-skipped item; no write is a delete, and it is an update iff the id has an existing row |
| AirtableSync.TallyBounds | airtable-coa.py:324-376 | skips plus writes equal the items, creates plus updates never exceed the writes, and the three counters never exceed the items |
| AirtableSync.TallyAllSucceed | airtable-coa.py:358-378 | when every write succeeds, creates plus updates equal the writes |
| AirtableSync.FetchedItemsNeverSkipped | airtable-coa.py:332 | no item the fetch emits is skipped by the reconciliation's exclusion test |
| AirtableSync.FetchedItemsAllKept | airtable-coa.py:332 | on fetched items, the keep set is exactly the set of their ids |
| AirtableSync.NoSkipsNoTally | airtable-coa.py:332-335 | with no excluded item, `skipped` does not grow |
| AirtableSync.ReconcileVendors | airtable-coa.py:489-531 | the vendor loop keeps every vendor id and issues each vendor's attempts in order |
| AirtableSync.SyncVendorsToAirtable | airtable-coa.py:476-543 | the whole vendor sync: fetched vendors, the existing index, the kept ids, the writes, and the stale deletes |
| AirtableSync.VendorIdsSpec | airtable-coa.py:490-495 | an id is kept iff some fetched vendor has it |
| AirtableSync.VendorAttemptsShape | airtable-coa.py:507-531 | a vendor without a row is created once; a vendor with a row is updated, and created as well only when that update fails |
| AirtableSync.VendorWritesBounds | airtable-coa.py:489-531 | the vendor loop writes between one and two rows per vendor |
| AirtableSync.VendorDeletesAreUnlisted | airtable-coa.py:533-541 | a vendor row is deleted iff it exists and no fetched vendor has its id |
| CoaDashboard.ClassifySpec | hempies-coa-db/includes/coa-dashboard/class-hempies-coa-dashboard.php:157-162 | needs a COA iff the document is falsy, published iff the document is truthy and `show_coa` is exactly `yes`, pending otherwise |
| CoaDashboard.RowFallbacks | hempies-coa-db/includes/coa-dashboard/class-hempies-coa-dashboard.php:164-174 | a row never shows a falsy SKU, date or view; a truthy SKU or creation date is shown as stored and a falsy one as `N/A` (both directions), and the view is the document exactly when a document exists, `#` otherwise |
| CoaDashboard.ListingFromIds | hempies-coa-db/includes/coa-dashboard/class-hempies-coa-dashboard.php:129-175 | one row per distinct listed product, covering all of them, is a listing |
| CoaDashboard.ListingRows | hempies-coa-db/includes/coa-dashboard/class-hempies-coa-dashboard.php:146-175 | the loop returns one row per published, SKU-bearing, non-excluded product, each that product's row |
| CoaDashboard.Dashboard.GetProductsData | hempies-coa-db/includes/coa-dashboard/class-hempies-coa-dashboard.php:121-180 | a bad nonce is rejected, a missing capability gets `Permission denied`, and otherwise the reply is the listing of the current store |
| CoaDashboard.Dashboard.LogCoaActivity | hempies-coa-db/includes/coa-dashboard/class-hempies-coa-dashboard.php:257-271 | the store afterwards is the old store with one entry appended to the product's log |
| CoaDashboard.LogAppends | hempies-coa-db/includes/coa-dashboard/class-hempies-coa-dashboard.php:257-271 | logging appends exactly one entry to the product's log and leaves the posts, other products' meta and the product's other keys as they were |
| CoaDashboard.LogStartsFresh | hempies-coa-db/includes/coa-dashboard/class-hempies-coa-dashboard.php:258-261 | a missing or non-array log is replaced by a log of the one new entry |
| CoaDashboard.LogAppendsAll | hempies-coa-db/includes/coa-dashboard/class-hempies-coa-dashboard.php:257-271 | successive log calls append their entries in order |
| CoaDashboard.Dashboard.HandleCoaUpload | hempies-coa-db/includes/coa-dashboard/class-hempies-coa-dashboard.php:182-213 | rejected or permission-denied calls change nothing; a failed upload reports its error and changes nothing; a moved file is stored and logged |
| CoaDashboard.UploadStores | hempies-coa-db/includes/coa-dashboard/class-hempies-coa-dashboard.php:200-209 | an upload stores the file URL, the expiration and status `pending`, and logs one `upload` entry |
| CoaDashboard.UploadInvisibleToListing | hempies-coa-db/includes/coa-dashboard/class-hempies-coa-dashboard.php:152-154 | the upload's keys are not the listing's keys: every product is listed, and every row shown, as before the upload |
| CoaDashboard.SetOtherMeta | hempies-coa-db/includes/coa-dashboard/class-hempies-coa-dashboard.php:129-174 | writing a meta key the listing does not read changes no listing decision and no row |
| CoaDashboard.Dashboard.HandleStatusUpdate | hempies-coa-db/includes/coa-dashboard/class-hempies-coa-dashboard.php:215-231 | rejected or permission-denied calls change nothing; otherwise the status is stored and logged with it |
| CoaDashboard.StatusUpdateStores | hempies-coa-db/includes/coa-dashboard/class-hempies-coa-dashboard.php:222-228 | the status is stored under `_coa_status` and one `status_change` entry carrying it is logged |
| CoaDashboard.StatusUpdateInvisibleToListing | hempies-coa-db/includes/coa-dashboard/class-hempies-coa-dashboard.php:225 | a status update changes no listing decision and no row |
| CoaDashboard.Dashboard.HandleExcludeProduct | hempies-coa-db/includes/coa-dashboard/class-hempies-coa-dashboard.php:233-255 | rejected or permission-denied calls change nothing; otherwise the product is flagged, made private and the exclusion logged |
| CoaDashboard.ExcludeHides | hempies-coa-db/includes/coa-dashboard/class-hempies-coa-dashboard.php:243-249 | after an exclusion the product is not listed, and every other product is listed exactly as before |
| CoaDashboard.ExclusionSticks | hempies-coa-db/includes/coa-dashboard/class-hempies-coa-dashboard.php:140-141 | once flagged, no later upload, status update or log call lists the product again |
| SyncStatus.CoaAirtable.constructor | src/Hempies_COA_Airtable.php:13-18 | the credentials come from the environment, with `Products` for an unset table name and "" otherwise; the object starts idle with an empty log |
| SyncStatus.CoaAirtable.StartSync | src/Hempies_COA_Airtable.php:20-25 | returns true, sets the running flag and appends one start entry; the credentials are unchanged |
| SyncStatus.StartMessageSpec | src/Hempies_COA_Airtable.php:22 | the start message is `Starting sync`, with ` in test mode` appended exactly in test mode |
| SyncStatus.StartWhileRunning | src/Hempies_COA_Airtable.php:20-25 | a second start while running is not refused; both starts are logged in order |
| SyncStatus.CoaAirtable.GetSyncStatus | src/Hempies_COA_Airtable.php:27-32 | returns the running flag and the log, changing nothing |
| SyncStatus.CoaAirtable.Log | src/Hempies_COA_Airtable.php:34-39 | appends exactly one timestamped entry and changes nothing else |
| SyncStatus.RunAppendsOnly | src/Hempies_COA_Airtable.php:20-39 | over any sequence of calls, the old log is a prefix of the new one, it grows by one entry per start, and the running flag is never cleared |

## Left out

- HTTP and SDK calls (`requests`, `pyairtable`) are not executed.
  - Square listings are given as a finite sequence of responses. Running out of responses ends a fetch, so a server that never stops paging is not modelled.
  - Inventory counts are given per variation. A failed inventory call is an empty list of counts.
  - Airtable listings are given as an optional list of rows.
  - Write outcomes come from an oracle keyed by the write, so two identical writes have the same outcome.
- Inventory quantities are parsed with `float()`. The model gives each count as an optional real and does not model the parse.
- `lower()` and `strip()` are modelled for ASCII only. `isspace()` is the ASCII whitespace set plus the four separator controls. Non-ASCII case folding and Unicode spaces are not modelled.
- Each run gets one `datetime.now()` stamp, a parameter, shared by every row. The source stamps each row as it writes it.
- Logging (`logging`, `logger.*`) is not modelled. The same holds for the log lines the PHP code writes beyond `sync_log` and `_coa_activity_log`.
- Malformed JSON from Square or Airtable is not modelled. Such a response would raise `KeyError` mid-loop.
- The order of Python dict iteration is left open when deleting stale rows. The order of `get_posts` results is left open in the listing. Only which deletes happen and which rows appear are stated.
- A missing vendor id or `ProductID` is modelled as the empty string. The code only tests these values for truthiness.
- WordPress is reduced to a map of posts and a map of post meta.
  - `check_ajax_referer` and `current_user_can` become two booleans.
  - `wp_handle_upload` becomes an outcome parameter.
  - `current_time` and `get_current_user_id` become parameters.
- `intval` and `sanitize_text_field` are not modelled. Ids and texts arrive already converted.
- Meta values other than strings and the activity log array are not modelled. A non-string value under a listing key reads as "".
- CoaDashboard.Dashboard.GetProductsData: the `edit` link (`get_edit_post_link`) of each row is not modelled. It depends on WordPress routing.
- The rendering of the admin page and the script enqueueing in the dashboard class are not modelled. They produce only HTML.
- `start_sync` is a stub in the source, and the model keeps it one.
- `Hempies Code Airtable/hempies-coa-db/hempies-coa-db.php` is not part of this model. Its batch queue, cron scheduling, capped log, progress percentage and notification emails are therefore not modelled.
- The Flask wrapper (`app.py`, `wsgi.py`) and the plugin bootstrap files are not part of this model.
