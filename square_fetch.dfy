/**
 * The three Square fetches of the sync script (`fetch_square_categories`,
 * `fetch_square_items`, `fetch_square_vendors`) as cursor loops over a
 * sequence of responses, each specified by a function of the objects the loop
 * processes.
 */
module SquareFetch {
  import opened Wrappers
  import opened Paging
  import opened SquareCatalog
  import opened SyncRules

  /* ---------- categories ---------- */

  /** A category object that names its category. */
  predicate IsNamedCategory(o: CatalogObject)
  {
    o.objType == "CATEGORY" && o.categoryName.Some?
  }

  /** The category map built from `objs`: id to name, a later object overwriting an earlier one. */
  function CategoryIndex(objs: seq<CatalogObject>): map<string, string>
  {
    if objs == [] then map[]
    else
      var m := CategoryIndex(objs[..|objs| - 1]);
      var o := objs[|objs| - 1];
      if IsNamedCategory(o) then m[o.id := o.categoryName.value] else m
  }

  lemma CategoryIndexSnoc(objs: seq<CatalogObject>, o: CatalogObject)
    ensures CategoryIndex(objs + [o]) ==
              if IsNamedCategory(o) then CategoryIndex(objs)[o.id := o.categoryName.value] else CategoryIndex(objs)
  {
    assert (objs + [o])[..|objs|] == objs;
  }

  /**
   * The map holds exactly the ids of named category objects, and each id maps
   * to the name of the last such object with that id.
   */
  lemma {:induction false} CategoryIndexSpec(objs: seq<CatalogObject>, k: string)
    ensures k in CategoryIndex(objs) <==>
              exists i | 0 <= i < |objs| :: IsNamedCategory(objs[i]) && objs[i].id == k
    ensures k in CategoryIndex(objs) ==>
              exists i | 0 <= i < |objs| ::
                IsNamedCategory(objs[i]) && objs[i].id == k &&
                CategoryIndex(objs)[k] == objs[i].categoryName.value &&
                forall j | i < j < |objs| :: !(IsNamedCategory(objs[j]) && objs[j].id == k)
  {
    if objs != [] {
      var init := objs[..|objs| - 1];
      var o := objs[|objs| - 1];
      CategoryIndexSpec(init, k);
      assert forall i | 0 <= i < |init| :: init[i] == objs[i];
      if !(IsNamedCategory(o) && o.id == k) && k in CategoryIndex(objs) {
        var i :| 0 <= i < |init| && IsNamedCategory(init[i]) && init[i].id == k &&
                 CategoryIndex(init)[k] == init[i].categoryName.value &&
                 forall j | i < j < |init| :: !(IsNamedCategory(init[j]) && init[j].id == k);
        assert forall j | i < j < |objs| :: !(IsNamedCategory(objs[j]) && objs[j].id == k);
      }
    }
  }

  /** The `for obj in objects` loop of one category page. */
  method AddCategories(categories: map<string, string>, objects: seq<CatalogObject>, ghost done: seq<CatalogObject>)
    returns (result: map<string, string>)
    requires categories == CategoryIndex(done)
    ensures result == CategoryIndex(done + objects)
  {
    result := categories;
    var k := 0;
    assert done + objects[..0] == done;
    while k < |objects|
      invariant 0 <= k <= |objects|
      invariant result == CategoryIndex(done + objects[..k])
    {
      var o := objects[k];
      if o.objType == "CATEGORY" && o.categoryName.Some? {
        result := result[o.id := o.categoryName.value];
      }
      PrefixSnoc(done, objects, k);
      CategoryIndexSnoc(done + objects[..k], o);
      k := k + 1;
    }
    assert objects[..k] == objects;
  }

  method FetchSquareCategories(pages: seq<Response<CatalogObject>>) returns (categories: map<string, string>)
    ensures categories == CategoryIndex(Fetched(pages))
  {
    categories := map[];
    var i := 0;
    var more := true;
    while more && i < |pages|
      invariant 0 <= i <= |pages|
      invariant more ==> Consumed(pages) == i + Consumed(pages[i..])
      invariant !more ==> Consumed(pages) == i
      invariant categories == CategoryIndex(Flatten(pages[..i]))
    {
      ConsumedFrom(pages, i);
      match pages[i]
      case TransportError =>
        more := false;
      case Listed(objects, cursor) =>
        if objects == [] {
          more := false;
        } else {
          categories := AddCategories(categories, objects, Flatten(pages[..i]));
          FlattenStep(pages, i);
          if cursor == "" {
            more := false;
          }
          i := i + 1;
        }
    }
    if more {
      assert pages[i..] == [];
    }
  }

  /* ---------- items ---------- */

  /** The name of the category `id` names, "" when it is unknown. */
  function CategoryOf(categories: map<string, string>, id: string): string
  {
    if id in categories then categories[id] else ""
  }

  /** An object whose variations the loop looks at: a live item outside the excluded categories. */
  predicate Eligible(obj: CatalogObject, categories: map<string, string>, excluded: seq<string>)
  {
    && obj.objType == "ITEM"
    && !obj.isDeleted
    && !IsExcludedCategory(Some(obj.itemData.categoryId), CategoryOf(categories, obj.itemData.categoryId), excluded)
  }

  function VariationRecord(obj: CatalogObject, v: Variation, categories: map<string, string>): ItemRecord
  {
    ItemRecord(
      id := v.id,
      name := FullName(obj.itemData.name, v.name),
      parentName := obj.itemData.name,
      variationName := v.name,
      categoryId := obj.itemData.categoryId,
      categoryName := CategoryOf(categories, obj.itemData.categoryId),
      quantity := 1,
      sku := v.sku,
      vendorId := FirstVendorId(v.vendorInfos))
  }

  /** The record of an item without variations. */
  function SimpleRecord(obj: CatalogObject, categories: map<string, string>): ItemRecord
  {
    ItemRecord(
      id := obj.id,
      name := obj.itemData.name,
      parentName := obj.itemData.name,
      variationName := "",
      categoryId := obj.itemData.categoryId,
      categoryName := CategoryOf(categories, obj.itemData.categoryId),
      quantity := 1,
      sku := obj.itemData.sku,
      vendorId := None)
  }

  /** The records of the variations in `vs` that have stock, in order. */
  function VariationRecords(obj: CatalogObject, vs: seq<Variation>, categories: map<string, string>): seq<ItemRecord>
  {
    if vs == [] then []
    else
      var v := vs[|vs| - 1];
      VariationRecords(obj, vs[..|vs| - 1], categories) +
      (if HasStock(v.counts) then [VariationRecord(obj, v, categories)] else [])
  }

  /** The records one listed object contributes. */
  function ObjectRecords(obj: CatalogObject, categories: map<string, string>, excluded: seq<string>): seq<ItemRecord>
  {
    if !Eligible(obj, categories, excluded) then []
    else if obj.itemData.variations != [] then VariationRecords(obj, obj.itemData.variations, categories)
    else if HasStock(obj.counts) then [SimpleRecord(obj, categories)]
    else []
  }

  /** The records of all of `objs`, object after object. */
  function ItemRecords(objs: seq<CatalogObject>, categories: map<string, string>, excluded: seq<string>): seq<ItemRecord>
  {
    if objs == [] then []
    else ItemRecords(objs[..|objs| - 1], categories, excluded) + ObjectRecords(objs[|objs| - 1], categories, excluded)
  }

  lemma ItemRecordsSnoc(objs: seq<CatalogObject>, o: CatalogObject, categories: map<string, string>, excluded: seq<string>)
    ensures ItemRecords(objs + [o], categories, excluded) ==
              ItemRecords(objs, categories, excluded) + ObjectRecords(o, categories, excluded)
  {
    assert (objs + [o])[..|objs|] == objs;
  }

  lemma VariationRecordsSnoc(obj: CatalogObject, vs: seq<Variation>, v: Variation, categories: map<string, string>)
    ensures VariationRecords(obj, vs + [v], categories) ==
              VariationRecords(obj, vs, categories) + (if HasStock(v.counts) then [VariationRecord(obj, v, categories)] else [])
  {
    assert (vs + [v])[..|vs|] == vs;
  }

  /** The `for variation in item_data['variations']` loop of one live, non-excluded item. */
  method AddVariations(
    items: seq<ItemRecord>, item: CatalogObject, categoryMap: map<string, string>, categoryName: string)
    returns (result: seq<ItemRecord>)
    requires categoryName == CategoryOf(categoryMap, item.itemData.categoryId)
    ensures result == items + VariationRecords(item, item.itemData.variations, categoryMap)
  {
    var data := item.itemData;
    result := items;
    var m := 0;
    while m < |data.variations|
      invariant 0 <= m <= |data.variations|
      invariant result == items + VariationRecords(item, data.variations[..m], categoryMap)
    {
      var v := data.variations[m];
      var vendorId := FirstVendorId(v.vendorInfos);
      if HasStock(v.counts) {
        result := result + [ItemRecord(
          id := v.id,
          name := FullName(data.name, v.name),
          parentName := data.name,
          variationName := v.name,
          categoryId := data.categoryId,
          categoryName := categoryName,
          quantity := 1,
          sku := v.sku,
          vendorId := vendorId)];
      }
      assert data.variations[..m + 1] == data.variations[..m] + [v];
      VariationRecordsSnoc(item, data.variations[..m], v, categoryMap);
      m := m + 1;
    }
    assert data.variations[..m] == data.variations;
  }

  /** The body of the `for item in objects` loop: the records one object adds. */
  method AddObject(items: seq<ItemRecord>, item: CatalogObject, categoryMap: map<string, string>, excluded: seq<string>)
    returns (result: seq<ItemRecord>)
    ensures result == items + ObjectRecords(item, categoryMap, excluded)
  {
    result := items;
    if item.objType == "ITEM" && !item.isDeleted {
      var data := item.itemData;
      var categoryName := if data.categoryId in categoryMap then categoryMap[data.categoryId] else "";
      if !IsExcludedCategory(Some(data.categoryId), categoryName, excluded) {
        if data.variations != [] {
          result := AddVariations(result, item, categoryMap, categoryName);
        } else if HasStock(item.counts) {
          result := result + [ItemRecord(
            id := item.id,
            name := data.name,
            parentName := data.name,
            variationName := "",
            categoryId := data.categoryId,
            categoryName := categoryName,
            quantity := 1,
            sku := data.sku,
            vendorId := None)];
        }
      }
    }
  }

  /** The `for item in objects` loop of one item page. */
  method AddItems(
    items: seq<ItemRecord>, objects: seq<CatalogObject>, categoryMap: map<string, string>, excluded: seq<string>,
    ghost done: seq<CatalogObject>)
    returns (result: seq<ItemRecord>)
    requires items == ItemRecords(done, categoryMap, excluded)
    ensures result == ItemRecords(done + objects, categoryMap, excluded)
  {
    result := items;
    var k := 0;
    assert done + objects[..0] == done;
    while k < |objects|
      invariant 0 <= k <= |objects|
      invariant result == ItemRecords(done + objects[..k], categoryMap, excluded)
    {
      var item := objects[k];
      result := AddObject(result, item, categoryMap, excluded);
      PrefixSnoc(done, objects, k);
      ItemRecordsSnoc(done + objects[..k], item, categoryMap, excluded);
      k := k + 1;
    }
    assert objects[..k] == objects;
  }

  method FetchSquareItems(
    categoryPages: seq<Response<CatalogObject>>,
    itemPages: seq<Response<CatalogObject>>,
    excluded: seq<string>)
    returns (items: seq<ItemRecord>)
    ensures items == ItemRecords(Fetched(itemPages), CategoryIndex(Fetched(categoryPages)), excluded)
  {
    var categoryMap := FetchSquareCategories(categoryPages);
    items := [];
    var i := 0;
    var more := true;
    while more && i < |itemPages|
      invariant 0 <= i <= |itemPages|
      invariant more ==> Consumed(itemPages) == i + Consumed(itemPages[i..])
      invariant !more ==> Consumed(itemPages) == i
      invariant items == ItemRecords(Flatten(itemPages[..i]), categoryMap, excluded)
    {
      ConsumedFrom(itemPages, i);
      match itemPages[i]
      case TransportError =>
        more := false;
      case Listed(objects, cursor) =>
        if objects == [] {
          more := false;
        } else {
          items := AddItems(items, objects, categoryMap, excluded, Flatten(itemPages[..i]));
          FlattenStep(itemPages, i);
          if cursor == "" {
            more := false;
          }
          i := i + 1;
        }
    }
    if more {
      assert itemPages[i..] == [];
    }
  }

  /**
   * What it takes for `r` to be emitted for `obj`: `obj` is an item that is
   * not deleted and whose category is not excluded; `r` has quantity 1 and
   * carries the item's name and category; and either the item has no
   * variations, has stock, and `r` is its own record without a vendor, or `r`
   * belongs to one of its variations that has stock, with that variation's
   * display name, SKU and first usable vendor id.
   */
  ghost predicate EmittedFrom(r: ItemRecord, obj: CatalogObject, categories: map<string, string>, excluded: seq<string>)
  {
    var data := obj.itemData;
    && obj.objType == "ITEM"
    && !obj.isDeleted
    && !IsExcludedCategory(Some(data.categoryId), CategoryOf(categories, data.categoryId), excluded)
    && r.quantity == 1
    && r.parentName == data.name
    && r.categoryId == data.categoryId
    && r.categoryName == CategoryOf(categories, data.categoryId)
    && if data.variations == [] then
         && HasStock(obj.counts)
         && r.id == obj.id && r.name == data.name && r.variationName == ""
         && r.sku == data.sku && r.vendorId == None
       else
         exists m | 0 <= m < |data.variations| ::
           && HasStock(data.variations[m].counts)
           && r.id == data.variations[m].id
           && r.name == FullName(data.name, data.variations[m].name)
           && r.variationName == data.variations[m].name
           && r.sku == data.variations[m].sku
           && r.vendorId == FirstVendorId(data.variations[m].vendorInfos)
  }

  lemma {:induction false} VariationRecordsMembership(
    obj: CatalogObject, vs: seq<Variation>, categories: map<string, string>, r: ItemRecord)
    ensures r in VariationRecords(obj, vs, categories) <==>
              exists m | 0 <= m < |vs| :: HasStock(vs[m].counts) && r == VariationRecord(obj, vs[m], categories)
  {
    if vs != [] {
      var init := vs[..|vs| - 1];
      VariationRecordsMembership(obj, init, categories, r);
      assert forall m | 0 <= m < |init| :: init[m] == vs[m];
    }
  }

  lemma ObjectRecordsMembership(obj: CatalogObject, categories: map<string, string>, excluded: seq<string>, r: ItemRecord)
    ensures r in ObjectRecords(obj, categories, excluded) <==> EmittedFrom(r, obj, categories, excluded)
  {
    var vs := obj.itemData.variations;
    VariationRecordsMembership(obj, vs, categories, r);
    if EmittedFrom(r, obj, categories, excluded) && vs != [] {
      var m :| 0 <= m < |vs| && HasStock(vs[m].counts) && r.id == vs[m].id &&
               r.name == FullName(obj.itemData.name, vs[m].name) && r.variationName == vs[m].name &&
               r.sku == vs[m].sku && r.vendorId == FirstVendorId(vs[m].vendorInfos);
      assert r == VariationRecord(obj, vs[m], categories);
    }
  }

  /** A record is emitted exactly when some listed object contributes it. */
  lemma {:induction false} ItemRecordsMembership(
    objs: seq<CatalogObject>, categories: map<string, string>, excluded: seq<string>, r: ItemRecord)
    ensures r in ItemRecords(objs, categories, excluded) <==>
              exists o | 0 <= o < |objs| :: r in ObjectRecords(objs[o], categories, excluded)
  {
    if objs != [] {
      var init := objs[..|objs| - 1];
      ItemRecordsMembership(init, categories, excluded, r);
      assert forall o | 0 <= o < |init| :: init[o] == objs[o];
    }
  }

  /**
   * The items fetch emits exactly the records described by `EmittedFrom`: each
   * record comes from a listed object meeting every filter, and every in-stock
   * variation (or in-stock simple item) of a live, non-excluded item is
   * emitted.
   */
  lemma ItemRecordsExactly(
    objs: seq<CatalogObject>, categories: map<string, string>, excluded: seq<string>, r: ItemRecord)
    ensures r in ItemRecords(objs, categories, excluded) <==>
              exists o | 0 <= o < |objs| :: EmittedFrom(r, objs[o], categories, excluded)
  {
    ItemRecordsMembership(objs, categories, excluded, r);
    forall o | 0 <= o < |objs|
      ensures r in ObjectRecords(objs[o], categories, excluded) <==> EmittedFrom(r, objs[o], categories, excluded)
    {
      ObjectRecordsMembership(objs[o], categories, excluded, r);
    }
  }

  /** Every emitted record has quantity 1 and a category that is not excluded by id or by name. */
  lemma EmittedRecordFacts(objs: seq<CatalogObject>, categories: map<string, string>, excluded: seq<string>, r: ItemRecord)
    requires r in ItemRecords(objs, categories, excluded)
    ensures r.quantity == 1
    ensures !IsExcludedCategory(Some(r.categoryId), r.categoryName, excluded)
  {
    ItemRecordsExactly(objs, categories, excluded, r);
  }

  /* ---------- vendors ---------- */

  /** The vendor records of `objs`, one per vendor, in order. */
  function VendorRecords(objs: seq<VendorObject>): seq<VendorRecord>
  {
    MapObjects(VendorRecordOf, objs)
  }

  /** The `for vendor in vendors` loop of one vendor page. */
  method AddVendors(vendors: seq<VendorRecord>, objects: seq<VendorObject>, ghost done: seq<VendorObject>)
    returns (result: seq<VendorRecord>)
    requires vendors == VendorRecords(done)
    ensures result == VendorRecords(done + objects)
  {
    result := vendors;
    var k := 0;
    assert done + objects[..0] == done;
    while k < |objects|
      invariant 0 <= k <= |objects|
      invariant result == VendorRecords(done + objects[..k])
    {
      result := result + [VendorRecordOf(objects[k])];
      PrefixSnoc(done, objects, k);
      MapObjectsSnoc(VendorRecordOf, done + objects[..k], objects[k]);
      k := k + 1;
    }
    assert objects[..k] == objects;
  }

  method FetchSquareVendors(pages: seq<Response<VendorObject>>) returns (vendors: seq<VendorRecord>)
    ensures vendors == VendorRecords(Fetched(pages))
  {
    vendors := [];
    var i := 0;
    var more := true;
    while more && i < |pages|
      invariant 0 <= i <= |pages|
      invariant more ==> Consumed(pages) == i + Consumed(pages[i..])
      invariant !more ==> Consumed(pages) == i
      invariant vendors == VendorRecords(Flatten(pages[..i]))
    {
      ConsumedFrom(pages, i);
      match pages[i]
      case TransportError =>
        more := false;
      case Listed(objects, cursor) =>
        if objects == [] {
          more := false;
        } else {
          vendors := AddVendors(vendors, objects, Flatten(pages[..i]));
          FlattenStep(pages, i);
          if cursor == "" {
            more := false;
          }
          i := i + 1;
        }
    }
    if more {
      assert pages[i..] == [];
    }
  }

  /** One vendor record per fetched vendor, in order, each built by `VendorRecordOf`. */
  lemma VendorRecordsAt(objs: seq<VendorObject>)
    ensures |VendorRecords(objs)| == |objs|
    ensures forall i | 0 <= i < |objs| :: VendorRecords(objs)[i] == VendorRecordOf(objs[i])
  {
    MapObjectsAt(VendorRecordOf, objs);
  }
}
