/**
 * The reconciliation half of the sync script: the index of the records already
 * in an Airtable table (`get_existing_airtable_products`,
 * `get_existing_airtable_vendors`), the product sync with its counters
 * (`sync_square_to_airtable`) and the vendor sync with its update-then-create
 * fallback (`sync_vendors_to_airtable`).
 *
 * Airtable is seen through three inputs: the listing `table.all()` answers
 * (`None` when it raises), and `succeeds`, which says for each write whether
 * the SDK call returns or raises.
 */
module AirtableSync {
  import opened Wrappers
  import opened Text
  import opened Paging
  import opened SquareCatalog
  import opened SyncRules
  import opened SquareFetch

  /* ---------- the destination tables ---------- */

  /** A row of `table.all()`: its record id and its key field (`ProductID` or `VendorID`), "" when absent. */
  datatype TableRecord = TableRecord(recordId: string, key: string)

  /** A write the script sends to a table. */
  datatype Write<F> = Create(fields: F) | Update(recordId: string, fields: F) | Delete(recordId: string)

  /** The existing records by key: rows with an empty key are passed over, and a later row replaces an earlier one. */
  function IndexByKey(records: seq<TableRecord>): map<string, string>
  {
    if records == [] then map[]
    else
      var m := IndexByKey(records[..|records| - 1]);
      var r := records[|records| - 1];
      if r.key != "" then m[r.key := r.recordId] else m
  }

  /** What `get_existing_airtable_*` returns: the index of the listing, or nothing when listing failed. */
  function ExistingIndex(listing: Option<seq<TableRecord>>): map<string, string>
  {
    if listing.None? then map[] else IndexByKey(listing.value)
  }

  lemma IndexByKeySnoc(records: seq<TableRecord>, r: TableRecord)
    ensures IndexByKey(records + [r]) ==
              if r.key != "" then IndexByKey(records)[r.key := r.recordId] else IndexByKey(records)
  {
    assert (records + [r])[..|records|] == records;
  }

  /**
   * The index holds exactly the non-empty keys of the listing, and each key
   * leads to the record id of the last row carrying it.
   */
  lemma {:induction false} IndexByKeySpec(records: seq<TableRecord>, k: string)
    ensures k in IndexByKey(records) <==> k != "" && exists i | 0 <= i < |records| :: records[i].key == k
    ensures k in IndexByKey(records) ==>
              exists i | 0 <= i < |records| ::
                records[i].key == k && IndexByKey(records)[k] == records[i].recordId &&
                forall j | i < j < |records| :: records[j].key != k
  {
    if records != [] {
      var init := records[..|records| - 1];
      var r := records[|records| - 1];
      IndexByKeySpec(init, k);
      assert forall i | 0 <= i < |init| :: init[i] == records[i];
      if r.key != k && k in IndexByKey(records) {
        var i :| 0 <= i < |init| && init[i].key == k && IndexByKey(init)[k] == init[i].recordId &&
                 forall j | i < j < |init| :: init[j].key != k;
        assert forall j | i < j < |records| :: records[j].key != k;
      }
    }
  }

  /** `get_existing_airtable_products` / `get_existing_airtable_vendors`: the `for record in records` loop. */
  method GetExisting(listing: Option<seq<TableRecord>>) returns (existing: map<string, string>)
    ensures existing == ExistingIndex(listing)
  {
    existing := map[];
    if listing.None? {
      return;
    }
    var records := listing.value;
    var k := 0;
    while k < |records|
      invariant 0 <= k <= |records|
      invariant existing == IndexByKey(records[..k])
    {
      var r := records[k];
      if r.key != "" {
        existing := existing[r.key := r.recordId];
      }
      assert records[..k + 1] == records[..k] + [r];
      IndexByKeySnoc(records[..k], r);
      k := k + 1;
    }
    assert records[..k] == records;
  }

  /** Every key in the index is non-empty; a failed listing leaves it empty. */
  lemma ExistingKeys(listing: Option<seq<TableRecord>>, k: string)
    requires k in ExistingIndex(listing)
    ensures k != "" && listing.Some?
    ensures exists i | 0 <= i < |listing.value| :: listing.value[i].key == k
  {
    IndexByKeySpec(listing.value, k);
  }

  /* ---------- stale records ---------- */

  /** `deleted` lists every existing key outside `keep` exactly once, and nothing else. */
  ghost predicate StaleDeletes(deleted: seq<string>, existing: map<string, string>, keep: set<string>)
  {
    (forall id :: id in deleted <==> id in existing && id !in keep) &&
    (forall i, j | 0 <= i < j < |deleted| :: deleted[i] != deleted[j])
  }

  /** The stale keys whose delete succeeds. */
  function DeletedOk<F>(existing: map<string, string>, keep: set<string>, succeeds: Write<F> -> bool): set<string>
  {
    set id | id in existing && id !in keep && succeeds(Delete(existing[id]))
  }

  /** The stale keys already visited, outside `remaining`, whose delete succeeded. */
  ghost function DeletedOkSoFar<F>(
    existing: map<string, string>, keep: set<string>, succeeds: Write<F> -> bool, remaining: set<string>): set<string>
  {
    set id | id in existing && id !in remaining && id !in keep && succeeds(Delete(existing[id]))
  }

  lemma DeletedOkStep<F>(
    existing: map<string, string>, keep: set<string>, succeeds: Write<F> -> bool, remaining: set<string>, id: string)
    requires id in remaining && id in existing
    ensures DeletedOkSoFar(existing, keep, succeeds, remaining - {id}) ==
              if id !in keep && succeeds(Delete(existing[id])) then DeletedOkSoFar(existing, keep, succeeds, remaining) + {id}
              else DeletedOkSoFar(existing, keep, succeeds, remaining)
    ensures id !in DeletedOkSoFar(existing, keep, succeeds, remaining)
  {
  }

  /**
   * The removal loop: every existing key is visited once, in an order the
   * model leaves open, and a key outside `keep` gets one delete of its record.
   * `removed` counts the deletes that succeed.
   */
  method DeleteStale<F>(existing: map<string, string>, keep: set<string>, succeeds: Write<F> -> bool)
    returns (deleted: seq<string>, removed: nat)
    ensures StaleDeletes(deleted, existing, keep)
    ensures removed == |DeletedOk(existing, keep, succeeds)|
  {
    deleted := [];
    removed := 0;
    var remaining := existing.Keys;
    while remaining != {}
      invariant remaining <= existing.Keys
      invariant forall id :: id in deleted <==> id in existing && id !in remaining && id !in keep
      invariant forall i, j | 0 <= i < j < |deleted| :: deleted[i] != deleted[j]
      invariant removed == |DeletedOkSoFar(existing, keep, succeeds, remaining)|
      decreases |remaining|
    {
      var id :| id in remaining;
      DeletedOkStep(existing, keep, succeeds, remaining, id);
      remaining := remaining - {id};
      if id !in keep {
        deleted := deleted + [id];
        if succeeds(Delete(existing[id])) {
          removed := removed + 1;
        }
      }
    }
    assert DeletedOk(existing, keep, succeeds) == DeletedOkSoFar(existing, keep, succeeds, {});
  }

  /** Only stale keys are removed, so the removal count never exceeds the number of stale keys. */
  lemma RemovedBound<F>(existing: map<string, string>, keep: set<string>, succeeds: Write<F> -> bool)
    ensures DeletedOk(existing, keep, succeeds) <= existing.Keys - keep
    ensures |DeletedOk(existing, keep, succeeds)| <= |existing.Keys - keep|
    ensures DeletedOk(existing, keep, succeeds) !! keep
  {
    var ok := DeletedOk(existing, keep, succeeds);
    assert ok <= existing.Keys - keep;
    SubsetCardinality(ok, existing.Keys - keep);
  }

  lemma {:induction false} SubsetCardinality<T>(a: set<T>, b: set<T>)
    requires a <= b
    ensures |a| <= |b|
    decreases |a|
  {
    if a != {} {
      var x :| x in a;
      SubsetCardinality(a - {x}, b - {x});
    }
  }

  /* ---------- products ---------- */

  /** The counters of `stats`. */
  class SyncStats {
    var processed: nat
    var created: nat
    var updated: nat
    var skipped: nat
    var removed: nat
    var total: nat

    constructor ()
      ensures processed == 0 && created == 0 && updated == 0
      ensures skipped == 0 && removed == 0 && total == 0
    {
      processed, created, updated, skipped, removed, total := 0, 0, 0, 0, 0, 0;
    }
  }

  /** The Airtable product row. `vendor` and `category` are absent when the item has no value for them. */
  datatype ProductFields = ProductFields(
    productId: string,
    productName: string,
    currentQuantity: int,
    ecomAvailable: bool,
    presentAtAllLocations: bool,
    lastUpdated: string,
    sku: string,
    vendor: Option<string>,
    category: Option<string>)

  /** The product row of `item`, stamped with `stamp`. */
  function ProductFieldsOf(item: ItemRecord, stamp: string): ProductFields
  {
    ProductFields(
      productId := item.id,
      productName := item.name,
      currentQuantity := item.quantity,
      ecomAvailable := true,
      presentAtAllLocations := true,
      lastUpdated := stamp,
      sku := item.sku,
      vendor := if item.vendorId.Some? && item.vendorId.value != "" then item.vendorId else None,
      category := if item.categoryName != "" && Strip(item.categoryName) != "" then Some(Strip(item.categoryName)) else None)
  }

  /** The written category is the item's category name without surrounding whitespace, and only a name with visible characters is written. */
  lemma ProductCategory(item: ItemRecord, stamp: string)
    ensures ProductFieldsOf(item, stamp).category.None? <==> AllSpace(item.categoryName)
    ensures ProductFieldsOf(item, stamp).category.Some? ==>
              var c := ProductFieldsOf(item, stamp).category.value;
              c != "" && !IsSpace(c[0]) && !IsSpace(c[|c| - 1]) &&
              (!IsSpace(item.categoryName[0]) && !IsSpace(item.categoryName[|item.categoryName| - 1]) ==> c == item.categoryName)
  {
    StripSpec(item.categoryName);
  }

  /** The reconciliation's exclusion test: a named category the list excludes by name. */
  predicate SkippedAsExcluded(item: ItemRecord, excluded: seq<string>)
  {
    item.categoryName != "" && IsExcludedCategory(None, item.categoryName, excluded)
  }

  /** The write for a kept item: an update of its existing record, or a create. */
  function ProductWrite(item: ItemRecord, existing: map<string, string>, stamp: string): Write<ProductFields>
  {
    var fields := ProductFieldsOf(item, stamp);
    if item.id in existing then Update(existing[item.id], fields) else Create(fields)
  }

  /** The ids the loop adds to `products_to_keep`. */
  function KeptIds(items: seq<ItemRecord>, excluded: seq<string>): set<string>
  {
    if items == [] then {}
    else
      var item := items[|items| - 1];
      KeptIds(items[..|items| - 1], excluded) + (if SkippedAsExcluded(item, excluded) then {} else {item.id})
  }

  /** The create and update writes of the product loop, in order. */
  function ProductWrites(items: seq<ItemRecord>, existing: map<string, string>, excluded: seq<string>, stamp: string)
    : seq<Write<ProductFields>>
  {
    if items == [] then []
    else
      var item := items[|items| - 1];
      ProductWrites(items[..|items| - 1], existing, excluded, stamp) +
      (if SkippedAsExcluded(item, excluded) then [] else [ProductWrite(item, existing, stamp)])
  }

  datatype Tallies = Tallies(created: nat, updated: nat, skipped: nat)

  function Plus(a: Tallies, b: Tallies): Tallies
  {
    Tallies(a.created + b.created, a.updated + b.updated, a.skipped + b.skipped)
  }

  /** What one item adds to the counters: a skip, or an update or create whose write succeeded, or nothing. */
  function ItemTally(
    item: ItemRecord, existing: map<string, string>, excluded: seq<string>, stamp: string,
    succeeds: Write<ProductFields> -> bool): Tallies
  {
    if SkippedAsExcluded(item, excluded) then Tallies(0, 0, 1)
    else if !succeeds(ProductWrite(item, existing, stamp)) then Tallies(0, 0, 0)
    else if item.id in existing then Tallies(0, 1, 0)
    else Tallies(1, 0, 0)
  }

  /** What the product loop adds to `created`, `updated` and `skipped`. */
  function Tally(
    items: seq<ItemRecord>, existing: map<string, string>, excluded: seq<string>, stamp: string,
    succeeds: Write<ProductFields> -> bool): Tallies
  {
    if items == [] then Tallies(0, 0, 0)
    else
      Plus(Tally(items[..|items| - 1], existing, excluded, stamp, succeeds),
           ItemTally(items[|items| - 1], existing, excluded, stamp, succeeds))
  }

  lemma ProductLoopSnoc(
    items: seq<ItemRecord>, item: ItemRecord, existing: map<string, string>, excluded: seq<string>, stamp: string,
    succeeds: Write<ProductFields> -> bool)
    ensures KeptIds(items + [item], excluded) ==
              KeptIds(items, excluded) + (if SkippedAsExcluded(item, excluded) then {} else {item.id})
    ensures ProductWrites(items + [item], existing, excluded, stamp) ==
              ProductWrites(items, existing, excluded, stamp) +
              (if SkippedAsExcluded(item, excluded) then [] else [ProductWrite(item, existing, stamp)])
    ensures Tally(items + [item], existing, excluded, stamp, succeeds) ==
              Plus(Tally(items, existing, excluded, stamp, succeeds), ItemTally(item, existing, excluded, stamp, succeeds))
  {
    assert (items + [item])[..|items|] == items;
  }

  /**
   * The body of the `for item in items` loop: bump `processed`; for an
   * excluded item bump `skipped` and stop; otherwise send the item's write
   * and bump `updated` or `created` only when it succeeds.
   */
  method ReconcileProduct(
    stats: SyncStats, item: ItemRecord, existing: map<string, string>, excluded: seq<string>, stamp: string,
    succeeds: Write<ProductFields> -> bool)
    returns (kept: bool, write: Write<ProductFields>)
    modifies stats
    ensures kept == !SkippedAsExcluded(item, excluded)
    ensures write == ProductWrite(item, existing, stamp)
    ensures stats.processed == old(stats.processed) + 1
    ensures stats.created == old(stats.created) + ItemTally(item, existing, excluded, stamp, succeeds).created
    ensures stats.updated == old(stats.updated) + ItemTally(item, existing, excluded, stamp, succeeds).updated
    ensures stats.skipped == old(stats.skipped) + ItemTally(item, existing, excluded, stamp, succeeds).skipped
    ensures stats.removed == old(stats.removed) && stats.total == old(stats.total)
  {
    stats.processed := stats.processed + 1;
    write := ProductWrite(item, existing, stamp);
    if item.categoryName != "" && IsExcludedCategory(None, item.categoryName, excluded) {
      stats.skipped := stats.skipped + 1;
      return false, write;
    }
    kept := true;
    if item.id in existing {
      if succeeds(write) {
        stats.updated := stats.updated + 1;
      }
    } else {
      if succeeds(write) {
        stats.created := stats.created + 1;
      }
    }
  }

  /** The `for item in items` loop, each kept id added to `keep` and each write recorded. */
  method ReconcileProducts(
    stats: SyncStats, items: seq<ItemRecord>, existing: map<string, string>, excluded: seq<string>, stamp: string,
    succeeds: Write<ProductFields> -> bool)
    returns (keep: set<string>, writes: seq<Write<ProductFields>>)
    modifies stats
    ensures keep == KeptIds(items, excluded)
    ensures writes == ProductWrites(items, existing, excluded, stamp)
    ensures stats.processed == old(stats.processed) + |items|
    ensures stats.created == old(stats.created) + Tally(items, existing, excluded, stamp, succeeds).created
    ensures stats.updated == old(stats.updated) + Tally(items, existing, excluded, stamp, succeeds).updated
    ensures stats.skipped == old(stats.skipped) + Tally(items, existing, excluded, stamp, succeeds).skipped
    ensures stats.removed == old(stats.removed) && stats.total == old(stats.total)
  {
    keep := {};
    writes := [];
    var k := 0;
    while k < |items|
      invariant 0 <= k <= |items|
      invariant keep == KeptIds(items[..k], excluded)
      invariant writes == ProductWrites(items[..k], existing, excluded, stamp)
      invariant stats.processed == old(stats.processed) + k
      invariant stats.created == old(stats.created) + Tally(items[..k], existing, excluded, stamp, succeeds).created
      invariant stats.updated == old(stats.updated) + Tally(items[..k], existing, excluded, stamp, succeeds).updated
      invariant stats.skipped == old(stats.skipped) + Tally(items[..k], existing, excluded, stamp, succeeds).skipped
      invariant stats.removed == old(stats.removed) && stats.total == old(stats.total)
    {
      var item := items[k];
      var kept, write := ReconcileProduct(stats, item, existing, excluded, stamp, succeeds);
      if kept {
        keep := keep + {item.id};
        writes := writes + [write];
      }
      assert items[..k + 1] == items[..k] + [item];
      ProductLoopSnoc(items[..k], item, existing, excluded, stamp, succeeds);
      k := k + 1;
    }
    assert items[..k] == items;
  }

  /**
   * `sync_square_to_airtable`: fetch the in-stock items, set `total`, index
   * the existing products, reconcile every item, then delete every existing
   * product that was not kept.
   */
  method SyncSquareToAirtable(
    stats: SyncStats, categoryPages: seq<Response<CatalogObject>>, itemPages: seq<Response<CatalogObject>>,
    listing: Option<seq<TableRecord>>, excluded: seq<string>, stamp: string, succeeds: Write<ProductFields> -> bool)
    returns (items: seq<ItemRecord>, existing: map<string, string>, keep: set<string>,
             writes: seq<Write<ProductFields>>, deleted: seq<string>)
    modifies stats
    ensures items == ItemRecords(Fetched(itemPages), CategoryIndex(Fetched(categoryPages)), excluded)
    ensures existing == ExistingIndex(listing)
    ensures keep == KeptIds(items, excluded)
    ensures writes == ProductWrites(items, existing, excluded, stamp)
    ensures StaleDeletes(deleted, existing, keep)
    ensures stats.total == |items|
    ensures stats.processed == old(stats.processed) + |items|
    ensures stats.created == old(stats.created) + Tally(items, existing, excluded, stamp, succeeds).created
    ensures stats.updated == old(stats.updated) + Tally(items, existing, excluded, stamp, succeeds).updated
    ensures stats.skipped == old(stats.skipped) + Tally(items, existing, excluded, stamp, succeeds).skipped
    ensures stats.removed == old(stats.removed) + |DeletedOk(existing, keep, succeeds)|
  {
    items := FetchSquareItems(categoryPages, itemPages, excluded);
    stats.total := |items|;
    existing := GetExisting(listing);
    keep, writes := ReconcileProducts(stats, items, existing, excluded, stamp, succeeds);
    var removed;
    deleted, removed := DeleteStale(existing, keep, succeeds);
    stats.removed := stats.removed + removed;
  }

  /** A kept id belongs to some item the loop did not skip; excluded items are never kept on their own account. */
  lemma {:induction false} KeptIdsSpec(items: seq<ItemRecord>, excluded: seq<string>, id: string)
    ensures id in KeptIds(items, excluded) <==>
              exists i | 0 <= i < |items| :: items[i].id == id && !SkippedAsExcluded(items[i], excluded)
  {
    if items != [] {
      var init := items[..|items| - 1];
      KeptIdsSpec(init, excluded, id);
      assert forall i | 0 <= i < |init| :: init[i] == items[i];
    }
  }

  /**
   * The writes are exactly those of the items the loop did not skip; each is
   * an update of the existing record when the id is known and a create
   * otherwise, and the product loop never deletes.
   */
  lemma {:induction false} ProductWritesSpec(
    items: seq<ItemRecord>, existing: map<string, string>, excluded: seq<string>, stamp: string, w: Write<ProductFields>)
    ensures w in ProductWrites(items, existing, excluded, stamp) <==>
              exists i | 0 <= i < |items| :: !SkippedAsExcluded(items[i], excluded) && w == ProductWrite(items[i], existing, stamp)
    ensures w in ProductWrites(items, existing, excluded, stamp) ==>
              !w.Delete? && (w.Update? <==> w.fields.productId in existing) &&
              (w.Update? ==> w.recordId == existing[w.fields.productId])
  {
    if items != [] {
      var init := items[..|items| - 1];
      ProductWritesSpec(init, existing, excluded, stamp, w);
      assert forall i | 0 <= i < |init| :: init[i] == items[i];
    }
  }

  /**
   * The counters: every item is either skipped or written, and only written
   * items can count as created or updated, so `created + updated + skipped`
   * never exceeds the number of items processed.
   */
  lemma {:induction false} TallyBounds(
    items: seq<ItemRecord>, existing: map<string, string>, excluded: seq<string>, stamp: string,
    succeeds: Write<ProductFields> -> bool)
    ensures var t := Tally(items, existing, excluded, stamp, succeeds);
            t.skipped + |ProductWrites(items, existing, excluded, stamp)| == |items| &&
            t.created + t.updated <= |ProductWrites(items, existing, excluded, stamp)| &&
            t.created + t.updated + t.skipped <= |items|
  {
    if items != [] {
      TallyBounds(items[..|items| - 1], existing, excluded, stamp, succeeds);
    }
  }

  /** When every write succeeds, each written item is counted as exactly one of created or updated. */
  lemma {:induction false} TallyAllSucceed(
    items: seq<ItemRecord>, existing: map<string, string>, excluded: seq<string>, stamp: string,
    succeeds: Write<ProductFields> -> bool)
    requires forall w :: succeeds(w)
    ensures var t := Tally(items, existing, excluded, stamp, succeeds);
            t.created + t.updated + t.skipped == |items|
  {
    if items != [] {
      TallyAllSucceed(items[..|items| - 1], existing, excluded, stamp, succeeds);
    }
  }

  /** No item the fetch emits is excluded by the reconciliation's name test. */
  lemma {:induction false} FetchedItemsNeverSkipped(
    objs: seq<CatalogObject>, categories: map<string, string>, excluded: seq<string>, items: seq<ItemRecord>)
    requires items <= ItemRecords(objs, categories, excluded)
    ensures forall i | 0 <= i < |items| :: !SkippedAsExcluded(items[i], excluded)
    decreases |items|
  {
    if items != [] {
      FetchedItemsNeverSkipped(objs, categories, excluded, items[..|items| - 1]);
      var r := items[|items| - 1];
      assert r in ItemRecords(objs, categories, excluded);
      EmittedRecordFacts(objs, categories, excluded, r);
    }
  }

  /**
   * On the items the fetch returns, `skipped` never moves: every item is kept
   * and written, and the keep set is the set of all item ids.
   */
  lemma FetchedItemsAllKept(
    objs: seq<CatalogObject>, categories: map<string, string>, excluded: seq<string>,
    existing: map<string, string>, stamp: string, succeeds: Write<ProductFields> -> bool)
    ensures var items := ItemRecords(objs, categories, excluded);
            Tally(items, existing, excluded, stamp, succeeds).skipped == 0 &&
            |ProductWrites(items, existing, excluded, stamp)| == |items| &&
            forall id :: id in KeptIds(items, excluded) <==> exists i | 0 <= i < |items| :: items[i].id == id
  {
    var items := ItemRecords(objs, categories, excluded);
    FetchedItemsNeverSkipped(objs, categories, excluded, items);
    TallyBounds(items, existing, excluded, stamp, succeeds);
    NoSkipsNoTally(items, existing, excluded, stamp, succeeds);
    forall id
      ensures id in KeptIds(items, excluded) <==> exists i | 0 <= i < |items| :: items[i].id == id
    {
      KeptIdsSpec(items, excluded, id);
    }
  }

  lemma {:induction false} NoSkipsNoTally(
    items: seq<ItemRecord>, existing: map<string, string>, excluded: seq<string>, stamp: string,
    succeeds: Write<ProductFields> -> bool)
    requires forall i | 0 <= i < |items| :: !SkippedAsExcluded(items[i], excluded)
    ensures Tally(items, existing, excluded, stamp, succeeds).skipped == 0
  {
    if items != [] {
      NoSkipsNoTally(items[..|items| - 1], existing, excluded, stamp, succeeds);
    }
  }

  /* ---------- vendors ---------- */

  /** The Airtable vendor row; the vendor's address is not written. */
  datatype VendorFields = VendorFields(
    vendorId: string,
    name: string,
    phone: string,
    email: string,
    contact: string,
    lastSynced: string)

  function VendorFieldsOf(v: VendorRecord, stamp: string): VendorFields
  {
    VendorFields(v.id, v.name, v.phone, v.email, v.contactName, stamp)
  }

  /**
   * The writes one vendor causes: an update of its existing record, followed
   * by a create when that update fails; a create when it has no record.
   */
  function VendorAttempts(
    v: VendorRecord, existing: map<string, string>, stamp: string, succeeds: Write<VendorFields> -> bool)
    : seq<Write<VendorFields>>
  {
    var fields := VendorFieldsOf(v, stamp);
    if v.id in existing then
      if succeeds(Update(existing[v.id], fields)) then [Update(existing[v.id], fields)]
      else [Update(existing[v.id], fields), Create(fields)]
    else [Create(fields)]
  }

  /** The writes of the vendor loop, vendor after vendor. */
  function VendorWrites(
    vendors: seq<VendorRecord>, existing: map<string, string>, stamp: string, succeeds: Write<VendorFields> -> bool)
    : seq<Write<VendorFields>>
  {
    if vendors == [] then []
    else
      VendorWrites(vendors[..|vendors| - 1], existing, stamp, succeeds) +
      VendorAttempts(vendors[|vendors| - 1], existing, stamp, succeeds)
  }

  /** The ids of `vendors`. */
  function VendorIds(vendors: seq<VendorRecord>): set<string>
  {
    if vendors == [] then {} else VendorIds(vendors[..|vendors| - 1]) + {vendors[|vendors| - 1].id}
  }

  lemma VendorLoopSnoc(
    vendors: seq<VendorRecord>, v: VendorRecord, existing: map<string, string>, stamp: string,
    succeeds: Write<VendorFields> -> bool)
    ensures VendorIds(vendors + [v]) == VendorIds(vendors) + {v.id}
    ensures VendorWrites(vendors + [v], existing, stamp, succeeds) ==
              VendorWrites(vendors, existing, stamp, succeeds) + VendorAttempts(v, existing, stamp, succeeds)
  {
    assert (vendors + [v])[..|vendors|] == vendors;
  }

  /** The `for vendor in vendors` loop: every vendor is kept and written. */
  method ReconcileVendors(
    vendors: seq<VendorRecord>, existing: map<string, string>, stamp: string, succeeds: Write<VendorFields> -> bool)
    returns (keep: set<string>, writes: seq<Write<VendorFields>>)
    ensures keep == VendorIds(vendors)
    ensures writes == VendorWrites(vendors, existing, stamp, succeeds)
  {
    keep := {};
    writes := [];
    for k := 0 to |vendors|
      invariant keep == VendorIds(vendors[..k])
      invariant writes == VendorWrites(vendors[..k], existing, stamp, succeeds)
    {
      var v := vendors[k];
      keep := keep + {v.id};
      var fields := VendorFieldsOf(v, stamp);
      if v.id in existing {
        var update := Update(existing[v.id], fields);
        writes := writes + [update];
        if !succeeds(update) {
          writes := writes + [Create(fields)];
        }
      } else {
        writes := writes + [Create(fields)];
      }
      assert vendors[..k + 1] == vendors[..k] + [v];
      VendorLoopSnoc(vendors[..k], v, existing, stamp, succeeds);
    }
    assert vendors[..|vendors|] == vendors;
  }

  /**
   * `sync_vendors_to_airtable`: fetch the vendors, index the existing vendor
   * rows, write every vendor, then delete every existing row whose vendor id
   * was not fetched.
   */
  method SyncVendorsToAirtable(
    vendorPages: seq<Response<VendorObject>>, listing: Option<seq<TableRecord>>, stamp: string,
    succeeds: Write<VendorFields> -> bool)
    returns (vendors: seq<VendorRecord>, existing: map<string, string>, keep: set<string>,
             writes: seq<Write<VendorFields>>, deleted: seq<string>)
    ensures vendors == VendorRecords(Fetched(vendorPages))
    ensures existing == ExistingIndex(listing)
    ensures keep == VendorIds(vendors)
    ensures writes == VendorWrites(vendors, existing, stamp, succeeds)
    ensures StaleDeletes(deleted, existing, keep)
  {
    vendors := FetchSquareVendors(vendorPages);
    existing := GetExisting(listing);
    keep, writes := ReconcileVendors(vendors, existing, stamp, succeeds);
    var removed;
    deleted, removed := DeleteStale(existing, keep, succeeds);
  }

  /** The keep set holds exactly the ids of the fetched vendors. */
  lemma {:induction false} VendorIdsSpec(vendors: seq<VendorRecord>, id: string)
    ensures id in VendorIds(vendors) <==> exists i | 0 <= i < |vendors| :: vendors[i].id == id
  {
    if vendors != [] {
      var init := vendors[..|vendors| - 1];
      VendorIdsSpec(init, id);
      assert forall i | 0 <= i < |init| :: init[i] == vendors[i];
    }
  }

  /**
   * Each vendor causes one or two writes: two exactly when it has an existing
   * record and updating it fails, and the second is then a create of the same
   * row. The last write of every vendor is a create or an update that succeeded.
   */
  lemma VendorAttemptsShape(
    v: VendorRecord, existing: map<string, string>, stamp: string, succeeds: Write<VendorFields> -> bool)
    ensures var a := VendorAttempts(v, existing, stamp, succeeds);
            1 <= |a| <= 2 &&
            (|a| == 2 <==> v.id in existing && !succeeds(a[0])) &&
            (a[0].Update? <==> v.id in existing) &&
            (forall w | w in a :: !w.Delete? && w.fields == VendorFieldsOf(v, stamp)) &&
            (a[|a| - 1].Create? || succeeds(a[|a| - 1]))
  {
  }

  /** The vendor loop writes between one and two rows per vendor. */
  lemma {:induction false} VendorWritesBounds(
    vendors: seq<VendorRecord>, existing: map<string, string>, stamp: string, succeeds: Write<VendorFields> -> bool)
    ensures |vendors| <= |VendorWrites(vendors, existing, stamp, succeeds)| <= 2 * |vendors|
  {
    if vendors != [] {
      VendorWritesBounds(vendors[..|vendors| - 1], existing, stamp, succeeds);
      VendorAttemptsShape(vendors[|vendors| - 1], existing, stamp, succeeds);
    }
  }

  /** Every fetched vendor is kept, so the deletes reach exactly the rows of vendors no longer listed. */
  lemma VendorDeletesAreUnlisted(
    vendors: seq<VendorRecord>, existing: map<string, string>, deleted: seq<string>, id: string)
    requires StaleDeletes(deleted, existing, VendorIds(vendors))
    ensures id in deleted <==> id in existing && forall i | 0 <= i < |vendors| :: vendors[i].id != id
  {
    VendorIdsSpec(vendors, id);
  }
}
